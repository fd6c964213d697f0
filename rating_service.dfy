/** Customer ratings: recording a rating, folding it into the technician's
    average and onto the job, and the two lookups. */
module RatingService {
  import opened Wrappers
  import opened Seqs
  import opened Types
  import opened AppStore
  import TechService
  import JobService

  datatype SubmitRatingData = SubmitRatingData(
    jobId: string,
    userId: string,
    technicianId: string,
    score: int,
    comment: string)

  /** `submitRating`: appends the rating record, re-averages the technician's
      rating and writes the score onto the job. Nothing rejects a second
      rating for the same job. */
  method SubmitRating(st: Store, data: SubmitRatingData, id: string, now: Timestamp)
    returns (rating: Rating)
    modifies st`ratings, st`technicians, st`jobs
    ensures rating == Rating(id, data.jobId, data.userId, data.technicianId, data.score,
                             data.comment, now)
    ensures st.ratings == old(st.ratings) + [rating]
    ensures st.technicians == TechService.Rerated(old(st.technicians), data.technicianId, data.score)
    ensures st.jobs == JobService.WithRating(old(st.jobs), data.jobId, data.score)
  {
    rating := Rating(id, data.jobId, data.userId, data.technicianId, data.score, data.comment, now);
    st.ratings := st.ratings + [rating];
    TechService.UpdateTechRating(st, data.technicianId, data.score);
    JobService.RateJob(st, data.jobId, data.score);
  }

  /** The predicate `r.technicianId === techId`. */
  function ByTechnician(techId: string): Rating -> bool {
    (r: Rating) => r.technicianId == techId
  }

  /** The predicate `r.jobId === jobId`. */
  function ForJob(jobId: string): Rating -> bool {
    (r: Rating) => r.jobId == jobId
  }

  /** `getRatingsByTechnician`: the technician's ratings, oldest first. */
  function GetRatingsByTechnician(ratings: seq<Rating>, techId: string): (r: seq<Rating>)
    ensures forall x :: x in r <==> x in ratings && x.technicianId == techId
  {
    Filter(ratings, ByTechnician(techId))
  }

  /** `getRatingForJob`: the first rating recorded for the job. */
  function GetRatingForJob(ratings: seq<Rating>, jobId: string): (r: Option<Rating>)
    ensures r.None? <==> forall x :: x in ratings ==> x.jobId != jobId
    ensures r.Some? ==> exists i :: 0 <= i < |ratings| && ratings[i] == r.value &&
                                   r.value.jobId == jobId &&
                                   forall k :: 0 <= k < i ==> ratings[k].jobId != jobId
  {
    Find(ratings, ForJob(jobId))
  }

  /** A new rating is listed last for its technician and changes no other
      technician's list. */
  lemma SubmittedRatingIsListed(ratings: seq<Rating>, rating: Rating, techId: string)
    ensures GetRatingsByTechnician(ratings + [rating], techId) ==
            GetRatingsByTechnician(ratings, techId) + (if rating.technicianId == techId then [rating] else [])
  {
    FilterConcat(ratings, [rating], ByTechnician(techId));
    assert [rating][1..] == [];
  }

  /** A new rating is what the job lookup returns only when the job had none;
      otherwise the earlier rating keeps being returned. */
  lemma RatingForJobAfterSubmit(ratings: seq<Rating>, rating: Rating)
    ensures GetRatingForJob(ratings + [rating], rating.jobId) ==
            if GetRatingForJob(ratings, rating.jobId).Some? then GetRatingForJob(ratings, rating.jobId)
            else Some(rating)
  {
    FindIndexAppend(ratings, rating, ForJob(rating.jobId));
  }

  /** Rating the same job twice stores both records, while the job lookup
      keeps returning the first. */
  lemma DuplicateRatingsAreKept(ratings: seq<Rating>, first: Rating, second: Rating)
    requires first.jobId == second.jobId
    requires GetRatingForJob(ratings, first.jobId).None?
    ensures Count(ratings + [first] + [second], ForJob(first.jobId)) == 2
    ensures GetRatingForJob(ratings + [first] + [second], first.jobId) == Some(first)
  {
    var p := ForJob(first.jobId);
    CountAppend(ratings, first, p);
    CountAppend(ratings + [first], second, p);
    RatingForJobAfterSubmit(ratings, first);
    RatingForJobAfterSubmit(ratings + [first], second);
  }
}
