# SunFix service engine: a Dafny model

SunFix is a browser-only app that dispatches solar-repair technicians in the
Belgaum region. Customers file repair requests for one of five service
clusters. The engine matches each request to an online technician of that
cluster, preferring women and then higher ratings. Technicians advance the
job through `requested → assigned → enroute → in-progress → completed`, and
each completion pays the technician. Customers rate finished jobs, and the
ratings feed a rolling technician average. Administrators see counts by
status, cluster and issue type, and can search the job list.

The model has thirteen modules. Each service or page gets its own module:

- `Wrappers` holds `Option` and `Result`.
- `Seqs` states the array built-ins the code uses over sequences: `findIndex`,
  `find`, `filter`, `filter(..).length`, `reverse`, `reduce` as a sum, and
  `slice`.
- `Types` holds the records, the enumerations and the `CLUSTERS` and
  `ISSUE_TYPES` tables.
- `AppStore.Store` is one class holding the persisted collections and the
  signed-in user.
- `TechService`, `JobService`, `RatingService` and `AuthService` are the four
  services.
- `TechJobsPage`, `StatusTimeline`, `AdminDashboard`, `AdminClusters` and
  `AdminJobs` hold the page logic.

How the source's shape maps onto Dafny:

- A service that reloads a collection, changes it and saves it back is a
  method on the store, framed to the fields it writes. Its `ensures` ties the
  new field to a function of the old one (`Credited`, `StatusUpdated`,
  `Rerated`, and so on). Lemmas state what those functions promise.
- Lookups, filters and the page computations are functions.
- A technician's rating is kept in integer tenths of a star. This makes
  `Math.round(x * 10) / 10` exact.
- Timestamps are readings of an injected clock (`nat`).
- Generated ids are parameters.
- The random completion payout is a parameter restricted to 200..299.

## Model

| member | source | states |
|---|---|---|
| Types.JobStatusHasFiveValues | lib/types.ts:3 | the job status takes exactly five values, listed once each in lifecycle order |
| Types.EnumerationSizes | lib/types.ts:1-23 | issue type has four values, user role three, technician gender two |
| Types.ClustersDistinct | lib/types.ts:75-81 | the cluster table has five entries with pairwise distinct ids and pairwise distinct names |
| Types.IssueTypesListedOnce | lib/types.ts:83-88 | the issue-type table lists every issue type exactly once |
| AppStore.Store.constructor | lib/store.ts:27-46 | every collection starts empty and nobody is signed in, as the store's fallbacks give |
| TechService.TechIndex | lib/services/tech-service.ts:56-57 | the position of the first technician with the id, or none exactly when no technician has it |
| TechService.RegisterTechnician | lib/services/tech-service.ts:13-36 | appends one technician with the caller's details, offline, rating 0, no jobs, zero earnings; earlier technicians unchanged |
| TechService.GetTechnicianByUserId | lib/services/tech-service.ts:38-40 | the first technician of the user, none exactly when the user has none |
| TechService.GetTechnicianById | lib/services/tech-service.ts:42-44 | the first technician with the id, none exactly when absent |
| TechService.GetByCluster | lib/services/tech-service.ts:50-52 | exactly the technicians of the cluster |
| TechService.GetByClusterKeepsOrder | lib/services/tech-service.ts:50-52 | the cluster list follows store order: a later registration is listed after earlier ones |
| TechService.ToggledEffect | lib/services/tech-service.ts:54-62 | toggling flips only `online` of the first technician with the id; an unknown id changes nothing |
| TechService.ToggleTwiceRestores | lib/services/tech-service.ts:54-62 | toggling the same id twice restores the original technicians |
| TechService.ToggleOnline | lib/services/tech-service.ts:54-62 | stores the toggled list and returns the updated technician, or none for an unknown id |
| TechService.CreditedEffect | lib/services/tech-service.ts:64-77 | crediting adds the amount to today's, weekly and total earnings and one job to the count, and nothing else changes; an unknown id is a no-op |
| TechService.UpdateEarnings | lib/services/tech-service.ts:64-77 | stores the credited technician list |
| TechService.RoundHalfUp | lib/services/tech-service.ts:90 | the result is the integer nearest to p/q, with halves rounded up |
| TechService.NewAverage | lib/services/tech-service.ts:84-90 | an unrated technician takes the score; otherwise it is the rounded mean of the old rating weighted by totalJobs-1 (at least 0) and the new score |
| TechService.FirstRatingIsTheScore | lib/services/tech-service.ts:86-87 | a first rating of four stars gives exactly 4.0 |
| TechService.NewAverageInRange | lib/services/tech-service.ts:84-91 | an old rating within 0..5 stars and a score within 1..5 give a new rating within 0..5 stars |
| TechService.ReratedEffect | lib/services/tech-service.ts:79-92 | only the rating of the first technician with the id changes; ratings stay within 0..5 stars for scores 1..5 |
| TechService.UpdateTechRating | lib/services/tech-service.ts:79-92 | stores the re-rated technician list |
| TechService.ProfiledEffect | lib/services/tech-service.ts:94-101 | a profile update touches only the first technician with the id; an empty patch changes nothing; a name-only patch changes only that technician's name |
| TechService.UpdateTechProfile | lib/services/tech-service.ts:94-101 | stores the patched technician list |
| JobService.Candidates | lib/services/job-service.ts:17-18 | exactly the online technicians of the cluster |
| JobService.Insert | lib/services/job-service.ts:19-25 | inserting keeps every technician exactly once (multiset) and puts the new or the old head first |
| JobService.InsertKeepsSorted | lib/services/job-service.ts:19-25 | insertion preserves comparator order |
| JobService.PrioritySort | lib/services/job-service.ts:19-25 | the sort is a permutation of the candidates in comparator order |
| JobService.CompareTransitive | lib/services/job-service.ts:20-25 | the comparator is transitive |
| JobService.CompareAntisymmetric | lib/services/job-service.ts:20-25 | the comparator is antisymmetric |
| JobService.SortHeadRanksFirst | lib/services/job-service.ts:19-28 | the sort's head ranks no later than any candidate and strictly before every earlier one |
| JobService.SortHeadIsFirstRanked | lib/services/job-service.ts:19-28 | the sort's head is the first-ranked candidate |
| JobService.FirstRankedIsUnique | lib/services/job-service.ts:19-28 | at most one candidate is first-ranked |
| JobService.MatchTechnician | lib/services/job-service.ts:15-30 | the match is an online technician of the cluster; none exactly when the cluster has no online technician |
| JobService.MatchFollowsPolicy | lib/services/job-service.ts:17-29 | the match is first-ranked: a woman whenever an eligible woman exists, no eligible same-gender technician rated higher, ties to the earliest in store order |
| JobService.WomanBeatsHigherRatedMan | lib/services/job-service.ts:20-25 | a woman rated 3.0 is matched over a man rated 5.0 in the same cluster |
| JobService.NewJob | lib/services/job-service.ts:38-63 | unmatched: status and history `requested`; matched: `[requested, assigned]` at one instant with the technician's id and name; status is the last history entry; rating none; createdAt equals updatedAt |
| JobService.CreateJob | lib/services/job-service.ts:32-68 | appends exactly the new job for the cluster's match and changes no technician |
| JobService.JobIndex | lib/services/job-service.ts:72 | the position of the first job with the id, none exactly when absent |
| JobService.GetJobById | lib/services/job-service.ts:104-106 | the first job with the id, none exactly when absent |
| JobService.CreatedJobIsFound | lib/services/job-service.ts:65-66 | a job created with a fresh id is found by that id, at the end of the list |
| JobService.GetJobsByUser | lib/services/job-service.ts:92-94 | exactly the jobs of the user |
| JobService.GetJobsByTechnician | lib/services/job-service.ts:96-98 | exactly the jobs assigned to the technician |
| JobService.CreatedJobListedForUser | lib/services/job-service.ts:92-94 | a new job is listed last among its requester's jobs |
| JobService.StatusUpdatedEffect | lib/services/job-service.ts:70-90 | any status may be set from any status; updatedAt is set; the history grows by exactly (status, now), keeping its prefix; other jobs are untouched; an unknown id changes nothing |
| JobService.WithStatusPreservesInvariants | lib/services/job-service.ts:78-80 | setting a status keeps a job well formed, and keeps its history in time order when the clock has not gone back |
| JobService.StatusUpdatePreservesInvariants | lib/services/job-service.ts:70-90 | status updates keep every job well formed, and keep histories in time order under a clock that has not gone back |
| JobService.Payee | lib/services/job-service.ts:82 | a technician is paid exactly on `completed` with a non-empty technician id, and it is the job's technician |
| JobService.PaidOutEffect | lib/services/job-service.ts:82-85 | only completing a job with a technician credits anyone, and then it credits that technician; other statuses, unassigned jobs and unknown ids change no technician |
| JobService.CompletingTwicePaysTwice | lib/services/job-service.ts:82-85 | completing an already completed job pays its technician again |
| JobService.UpdateJobStatus | lib/services/job-service.ts:70-90 | stores the updated jobs and the paid-out technicians with a payout in 200..299; returns the updated job, or none for an unknown id |
| JobService.ApplyStatusesHistory | lib/services/job-service.ts:78-80 | a run of updates appends exactly its entries in order, leaves the last status set and keeps the job well formed |
| JobService.FullLifecycleHistory | lib/services/job-service.ts:38-80 | an unmatched request taken through the lifecycle has the five-entry history requested, assigned, enroute, in-progress, completed |
| JobService.WithRatingEffect | lib/services/job-service.ts:108-115 | rating replaces only the rating field of the first job with the id; an unknown id is a no-op |
| JobService.RateJob | lib/services/job-service.ts:108-115 | stores the rated jobs |
| RatingService.SubmitRating | lib/services/rating-service.ts:14-36 | appends exactly one rating with the caller's fields, re-rates the technician as updateTechRating does, and writes the score onto the job |
| RatingService.GetRatingsByTechnician | lib/services/rating-service.ts:38-40 | exactly the technician's ratings |
| RatingService.SubmittedRatingIsListed | lib/services/rating-service.ts:38-40 | a new rating is listed last for its technician and for no other |
| RatingService.GetRatingForJob | lib/services/rating-service.ts:42-44 | the first rating of the job, none exactly when the job has none |
| RatingService.RatingForJobAfterSubmit | lib/services/rating-service.ts:42-44 | after a submission the job has a rating: the earlier one if any, otherwise the new one |
| RatingService.DuplicateRatingsAreKept | lib/services/rating-service.ts:14-36 | rating a job twice stores two ratings while the lookup keeps returning the first |
| AuthService.ErrorMessage | lib/services/auth-service.ts:39-70 | each failure has a non-empty message |
| AuthService.ErrorMessagesDistinct | lib/services/auth-service.ts:39-70 | the three failure messages are pairwise different |
| AuthService.FindUserByEmail | lib/services/auth-service.ts:37 | the first user with the e-mail, none exactly when no user has it |
| AuthService.Authenticate | lib/services/auth-service.ts:60-75 | unknown e-mail fails with NoAccount, a wrong or missing password with IncorrectPassword, otherwise the first account with that e-mail |
| AuthService.SignedUp | lib/services/auth-service.ts:35-58 | a taken e-mail fails with DuplicateEmail; otherwise one user is appended and the password stored under the e-mail |
| AuthService.SignupKeepsEmailsUnique | lib/services/auth-service.ts:36-53 | sign-up keeps e-mail addresses unique across users |
| AuthService.LoginAfterSignup | lib/services/auth-service.ts:35-75 | logging in with the sign-up's e-mail and password returns the new user, and a second sign-up with that e-mail fails |
| AuthService.SignupLeavesOtherLoginsAlone | lib/services/auth-service.ts:52-55 | sign-up changes no other address's login outcome |
| AuthService.Signup | lib/services/auth-service.ts:35-58 | stores the signed-up accounts and signs the new user in; a taken e-mail changes nothing |
| AuthService.Login | lib/services/auth-service.ts:60-75 | returns the authentication outcome, signs in on success and changes nothing on failure |
| AuthService.Logout | lib/services/auth-service.ts:77-79 | nobody is signed in afterwards |
| AuthService.SignupAccount | context/auth-context.tsx:38-55 | succeeds exactly when `SignedUp` does and then leaves the accounts it gives, signed in; a taken e-mail changes nothing; a technician sign-up also appends the whole new technician record (caller's details, gender defaulting to female, offline, unrated, no jobs, no earnings); other sign-ups leave technicians alone |
| TechJobsPage.NextStatus | app/technician/jobs/page.tsx:16-20 | a successor exists exactly for assigned, enroute and in-progress, and it is the next status in timeline order |
| TechJobsPage.NextStatusLabel | app/technician/jobs/page.tsx:22-26 | a button caption exists exactly when a successor does |
| TechJobsPage.CompletedStaysCompleted | app/technician/jobs/page.tsx:45-48 | pressing the button on a completed job never changes it |
| TechJobsPage.ThreeStepsToCompleted | app/technician/jobs/page.tsx:45-48 | from assigned, the job is completed after n presses exactly when n is at least 3 |
| TechJobsPage.HandleStatusUpdate | app/technician/jobs/page.tsx:45-50 | moves the job to its successor through updateJobStatus; a job without a successor is left alone |
| TechJobsPage.ActiveJobs | app/technician/jobs/page.tsx:42 | exactly the technician's jobs that are not completed |
| TechJobsPage.CompletedJobs | app/technician/jobs/page.tsx:43 | exactly the technician's completed jobs |
| TechJobsPage.TabsPartitionMyJobs | app/technician/jobs/page.tsx:41-43 | every job of the technician is on exactly one tab, and the tab sizes add up |
| StatusTimeline.IndexOf | components/job/status-timeline.tsx:26 | the position of the status in the timeline, never -1 and unique |
| StatusTimeline.Timeline | components/job/status-timeline.tsx:30-34 | one row per status, in lifecycle order |
| StatusTimeline.ExactlyOneCurrent | components/job/status-timeline.tsx:33 | exactly one row is current, the one showing the job's status, and no row is both completed and current |
| StatusTimeline.CompletedRowsArePrefix | components/job/status-timeline.tsx:32 | the completed rows are exactly those before the current one: none for requested, four for completed |
| StatusTimeline.ConnectorHighlighting | components/job/status-timeline.tsx:58-62 | every row but the last has a connector, highlighted exactly before the current row |
| StatusTimeline.TimestampOfFirstEntry | components/job/status-timeline.tsx:34 | a row shows the time of the first history entry with its status, and none when there is no such entry |
| AdminDashboard.TotalEarnings | app/admin/dashboard/page.tsx:58 | the total is non-negative when every technician's total is |
| AdminDashboard.TotalEarningsReplace | app/admin/dashboard/page.tsx:58 | replacing a technician changes the total by the change in that technician's earnings |
| AdminDashboard.CreditRaisesTotal | app/admin/dashboard/page.tsx:58 | crediting a known technician raises the earnings sum by the amount; an unknown id leaves it alone |
| AdminDashboard.PayoutRaisesTotalEarnings | app/admin/dashboard/page.tsx:50-66 | a completion payout raises the dashboard's total-earnings figure by exactly the amount paid |
| AdminDashboard.DashboardStats | app/admin/dashboard/page.tsx:50-66 | completed, pending and underway add up to the total; online and women technicians are at most all technicians; earnings are non-negative when each is; each figure is the count or sum it names |
| AdminDashboard.ReplaceFirst | app/admin/dashboard/page.tsx:70 | a leading occurrence is replaced, and a string shorter than the pattern is kept |
| AdminDashboard.ReplaceFirstAt | app/admin/dashboard/page.tsx:70 | only the first occurrence is replaced: the text before it and after the match is kept |
| AdminDashboard.ReplaceFirstAbsent | app/admin/dashboard/page.tsx:70 | a pattern that occurs nowhere leaves the string unchanged |
| AdminDashboard.ClusterLabels | app/admin/dashboard/page.tsx:70 | the bar labels are North, South, R.East, R.West and Khanapur |
| AdminDashboard.ClusterData | app/admin/dashboard/page.tsx:68-74 | one bar per cluster, counting the jobs and technicians whose cluster string is its name |
| AdminDashboard.ClusterBarsCountKnownClusters | app/admin/dashboard/page.tsx:68-74 | the bars count each job of a known cluster once, so they add up to at most the number of jobs |
| AdminDashboard.IssueData | app/admin/dashboard/page.tsx:76-81 | one slice per issue type, labelled from the table, counting that type's jobs |
| AdminDashboard.IssueSlicesCountEveryJob | app/admin/dashboard/page.tsx:76-81 | the slices add up to the number of jobs |
| AdminDashboard.RecentJobs | app/admin/dashboard/page.tsx:281-285 | the last min(10, n) jobs, newest first |
| AdminClusters.StatFor | app/admin/clusters/page.tsx:27-53 | each figure counts the cluster's jobs or technicians passing its test (status completed, active, requested; online; woman); completed, active and pending add up to the cluster's jobs; online and women technicians are at most its technicians |
| AdminClusters.ClusterStats | app/admin/clusters/page.tsx:26-55 | one card per cluster, in table order |
| AdminClusters.CardsAgreeWithDashboard | app/admin/clusters/page.tsx:28-29 | each card's job and technician counts equal the dashboard bar's for that cluster |
| AdminJobs.LowerChar | app/admin/jobs/page.tsx:44 | upper-case ASCII letters are lowered, every other character is kept |
| AdminJobs.Lower | app/admin/jobs/page.tsx:44 | lowers each character, keeping the length |
| AdminJobs.Filtered | app/admin/jobs/page.tsx:39-56 | every job shown is stored, has the filtered status and matches the search; no more jobs than stored |
| AdminJobs.NoFilterShowsAllNewestFirst | app/admin/jobs/page.tsx:40-55 | with every status and no search, all jobs are shown, newest first |
| AdminJobs.FilteredIsReversedSubsequence | app/admin/jobs/page.tsx:39-56 | the list is the reversed store filtered, and every job passing both tests is shown |
| AdminJobs.LowerIdempotent | app/admin/jobs/page.tsx:44 | lowering twice is lowering once |
| AdminJobs.SearchIgnoresCase | app/admin/jobs/page.tsx:43-50 | two searches that lower alike show the same list |

## Left out

- lib/store.ts: localStorage, JSON parsing, the `typeof window` checks, swallowed storage errors and `clearAll` are I/O. Each collection and the signed-in user is a field of `AppStore.Store`.
- The password table's own loader in lib/services/auth-service.ts:19-27 is I/O too. It is the `passwords` field.
- `generateId` and `new Date().toISOString()`: ids and timestamps are parameters. A timestamp is a `nat` clock reading, not an ISO string.
- Where uniqueness matters, a lemma requires the id to be fresh (`JobService.CreatedJobIsFound`).
- The technician sign-up reads the clock twice, once per record, so `AuthService.SignupAccount` takes two timestamps.
- `Math.random` in the payout: `JobService.UpdateJobStatus` takes the payout as a parameter restricted to 200..299.
- `getAllJobs`, `getAllTechnicians` and `getCurrentUser` only read a store field, so they are not separate members.
- `avgRating` on the dashboard and the clusters page is floating-point arithmetic for display.
- The technician earnings page's random chart is out of scope.
- TechService.NewAverage: works in exact tenths of a star. It does not reproduce binary floating-point error in `Math.round(x * 10) / 10`. For example, it rounds an exact half up where the float product could land just below it.
- JobService.MatchTechnician: returns the whole technician record rather than the `{ id, name }` pair. Only those two fields are used.
- JobService.UpdateJobStatus: the source mutates the loaded job object before writing a copy back. The model computes the new job as a value, so aliasing of that object is not modelled.
- TechService.UpdateTechProfile: models a `Partial<Technician>` as present or absent fields. A key explicitly set to `undefined`, which the spread would copy, is not modelled.
- AdminJobs.Lower: lowers ASCII letters only, not the full Unicode case mapping of `toLowerCase`.
- Not modelled:
  - React plumbing and rendering: toasts, redirects, the auth context's own `setUser` state, and `STATUS_CONFIG` labels, icons and colours;
  - the forms, including image upload;
  - the rating modal;
  - the landing pages.
- Passwords are stored and compared in plain text, as in the source. Hashing is not part of the model.
