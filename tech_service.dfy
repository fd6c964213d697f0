/** The technician registry: registration, lookups, availability, the
    earnings accumulators and the rolling rating. */
module TechService {
  import opened Wrappers
  import opened Seqs
  import opened Types
  import opened AppStore

  datatype RegisterTechData = RegisterTechData(
    userId: string,
    name: string,
    email: string,
    phone: string,
    gender: Gender,
    cluster: string)

  /** The predicate `t.id === id`. */
  function HasId(id: string): Technician -> bool {
    (t: Technician) => t.id == id
  }

  /** The predicate `t.userId === userId`. */
  function HasUserId(userId: string): Technician -> bool {
    (t: Technician) => t.userId == userId
  }

  /** The predicate `t.cluster === cluster`. */
  function InCluster(cluster: string): Technician -> bool {
    (t: Technician) => t.cluster == cluster
  }

  /** `techs.findIndex((t) => t.id === techId)`: the position of the first
      technician carrying the id. */
  function TechIndex(techs: seq<Technician>, id: string): (r: Option<nat>)
    ensures r.Some? ==> r.value < |techs| && techs[r.value].id == id
    ensures r.Some? ==> forall k :: 0 <= k < r.value ==> techs[k].id != id
    ensures r.None? <==> forall k :: 0 <= k < |techs| ==> techs[k].id != id
  {
    FindIndex(techs, HasId(id))
  }

  /** Registration appends one technician with the caller's details, offline,
      unrated, with no jobs and no earnings. */
  method RegisterTechnician(st: Store, data: RegisterTechData, id: string, now: Timestamp)
    returns (tech: Technician)
    modifies st`technicians
    ensures st.technicians == old(st.technicians) + [tech]
    ensures tech.id == id && tech.createdAt == now
    ensures tech.userId == data.userId && tech.name == data.name && tech.email == data.email
    ensures tech.phone == data.phone && tech.gender == data.gender && tech.cluster == data.cluster
    ensures !tech.online && tech.rating == 0 && tech.totalJobs == 0
    ensures tech.earningsToday == 0 && tech.earningsWeekly == 0 && tech.earningsTotal == 0
  {
    tech := Technician(id, data.userId, data.name, data.email, data.phone, data.gender,
                       data.cluster, false, 0, 0, 0, 0, 0, now);
    st.technicians := st.technicians + [tech];
  }

  /** The first technician of the user, if any. */
  function GetTechnicianByUserId(techs: seq<Technician>, userId: string): (r: Option<Technician>)
    ensures r.None? <==> forall t :: t in techs ==> t.userId != userId
    ensures r.Some? ==> exists i :: 0 <= i < |techs| && techs[i] == r.value &&
                                   r.value.userId == userId &&
                                   forall k :: 0 <= k < i ==> techs[k].userId != userId
  {
    Find(techs, HasUserId(userId))
  }

  /** The first technician with the id, if any. */
  function GetTechnicianById(techs: seq<Technician>, id: string): (r: Option<Technician>)
    ensures r.None? <==> forall t :: t in techs ==> t.id != id
    ensures r.Some? ==> exists i :: 0 <= i < |techs| && techs[i] == r.value && r.value.id == id &&
                                   forall k :: 0 <= k < i ==> techs[k].id != id
  {
    Find(techs, HasId(id))
  }

  /** The technicians of a cluster, in store order. */
  function GetByCluster(techs: seq<Technician>, cluster: string): (r: seq<Technician>)
    ensures forall t :: t in r <==> t in techs && t.cluster == cluster
  {
    Filter(techs, InCluster(cluster))
  }

  /** The cluster listing keeps store order: listing a concatenation lists the
      two parts one after the other. */
  lemma GetByClusterKeepsOrder(a: seq<Technician>, b: seq<Technician>, cluster: string)
    ensures GetByCluster(a + b, cluster) == GetByCluster(a, cluster) + GetByCluster(b, cluster)
  {
    FilterConcat(a, b, InCluster(cluster));
  }

  /** The technicians after `toggleOnline(id)`. */
  function Toggled(techs: seq<Technician>, id: string): seq<Technician> {
    match TechIndex(techs, id)
    case None => techs
    case Some(i) => techs[i := techs[i].(online := !techs[i].online)]
  }

  /** Toggling flips the availability of the first technician with the id and
      changes nothing else; an unknown id changes nothing. */
  lemma ToggledEffect(techs: seq<Technician>, id: string)
    ensures |Toggled(techs, id)| == |techs|
    ensures TechIndex(techs, id).None? ==> Toggled(techs, id) == techs
    ensures forall k :: 0 <= k < |techs| && TechIndex(techs, id) != Some(k) ==>
              Toggled(techs, id)[k] == techs[k]
    ensures forall k :: 0 <= k < |techs| && TechIndex(techs, id) == Some(k) ==>
              Toggled(techs, id)[k] == techs[k].(online := !techs[k].online)
  {
  }

  /** Toggling twice restores the original availability. */
  lemma ToggleTwiceRestores(techs: seq<Technician>, id: string)
    ensures Toggled(Toggled(techs, id), id) == techs
  {
    match TechIndex(techs, id)
    case None =>
    case Some(i) =>
      var t := techs[i].(online := !techs[i].online);
      FindIndexReplace(techs, i, t, HasId(id));
      assert TechIndex(Toggled(techs, id), id) == Some(i);
      assert techs[i := t][i := techs[i]] == techs;
  }

  /** `toggleOnline`: flips the technician's availability and returns the
      updated record, or `None` for an unknown id. */
  method ToggleOnline(st: Store, id: string) returns (r: Option<Technician>)
    modifies st`technicians
    ensures st.technicians == Toggled(old(st.technicians), id)
    ensures r.None? <==> TechIndex(old(st.technicians), id).None?
    ensures r.Some? ==> r == Some(st.technicians[TechIndex(old(st.technicians), id).value])
  {
    var index := TechIndex(st.technicians, id);
    if index.None? {
      return None;
    }
    var i := index.value;
    st.technicians := st.technicians[i := st.technicians[i].(online := !st.technicians[i].online)];
    r := Some(st.technicians[i]);
  }

  /** The technicians after `updateEarnings(id, amount)`. */
  function Credited(techs: seq<Technician>, id: string, amount: int): seq<Technician> {
    match TechIndex(techs, id)
    case None => techs
    case Some(i) =>
      techs[i := techs[i].(earningsToday := techs[i].earningsToday + amount,
                           earningsWeekly := techs[i].earningsWeekly + amount,
                           earningsTotal := techs[i].earningsTotal + amount,
                           totalJobs := techs[i].totalJobs + 1)]
  }

  /** Crediting adds the amount to all three accumulators of the first
      technician with the id and counts one more job; nothing else changes, and
      an unknown id changes nothing. */
  lemma CreditedEffect(techs: seq<Technician>, id: string, amount: int)
    ensures |Credited(techs, id, amount)| == |techs|
    ensures TechIndex(techs, id).None? ==> Credited(techs, id, amount) == techs
    ensures forall k :: 0 <= k < |techs| && TechIndex(techs, id) != Some(k) ==>
              Credited(techs, id, amount)[k] == techs[k]
    ensures forall k :: 0 <= k < |techs| && TechIndex(techs, id) == Some(k) ==>
              var t, u := techs[k], Credited(techs, id, amount)[k];
              u.earningsToday == t.earningsToday + amount &&
              u.earningsWeekly == t.earningsWeekly + amount &&
              u.earningsTotal == t.earningsTotal + amount &&
              u.totalJobs == t.totalJobs + 1 &&
              u == t.(earningsToday := u.earningsToday, earningsWeekly := u.earningsWeekly,
                      earningsTotal := u.earningsTotal, totalJobs := u.totalJobs)
  {
  }

  /** `updateEarnings`. */
  method UpdateEarnings(st: Store, id: string, amount: int)
    modifies st`technicians
    ensures st.technicians == Credited(old(st.technicians), id, amount)
  {
    var index := TechIndex(st.technicians, id);
    if index.None? {
      return;
    }
    var i := index.value;
    var t := st.technicians[i];
    st.technicians := st.technicians[i := t.(earningsToday := t.earningsToday + amount,
                                             earningsWeekly := t.earningsWeekly + amount,
                                             earningsTotal := t.earningsTotal + amount,
                                             totalJobs := t.totalJobs + 1)];
  }

  /** `Math.round(p / q)` for a positive `q`: the integer nearest to `p / q`,
      halves rounded up. */
  function RoundHalfUp(p: int, q: int): (r: int)
    requires q > 0
    ensures 2 * q * r <= 2 * p + q < 2 * q * (r + 1)
  {
    (2 * p + q) / (2 * q)
  }

  /** The new rating, in tenths, after folding in a score of `score` stars:
      with no rating yet it is the score itself; otherwise it is the mean
      `(old * (n - 1) + score) / n`, with `n` the job count (1 when there are
      none), rounded half up to the nearest tenth. */
  function NewAverage(rating: int, totalJobs: nat, score: int): (r: int)
    ensures rating == 0 ==> r == 10 * score
    ensures rating != 0 ==>
              var n := if totalJobs == 0 then 1 else totalJobs;
              2 * n * r <= 2 * (rating * (n - 1) + 10 * score) + n < 2 * n * (r + 1)
  {
    var n := if totalJobs == 0 then 1 else totalJobs;
    if rating == 0 then 10 * score else RoundHalfUp(rating * (n - 1) + 10 * score, n)
  }

  /** A first rating of four stars is exactly 4.0. */
  lemma FirstRatingIsTheScore(totalJobs: nat)
    ensures NewAverage(0, totalJobs, 4) == 40
  {
  }

  /** A rating within 0..5 stars stays within 0..5 stars after a score of 1..5. */
  lemma NewAverageInRange(rating: int, totalJobs: nat, score: int)
    requires 0 <= rating <= 50 && 1 <= score <= 5
    ensures 0 <= NewAverage(rating, totalJobs, score) <= 50
  {
    if rating != 0 {
      var n := if totalJobs == 0 then 1 else totalJobs;
      var p := rating * (n - 1) + 10 * score;
      MulBounds(rating, 50, n - 1);
      assert 0 <= 2 * p + n < 2 * n * 51;
      QuotientBelow(2 * p + n, 2 * n, 51);
    }
  }

  lemma MulBounds(a: int, b: int, m: nat)
    requires 0 <= a <= b
    ensures 0 <= a * m <= b * m
  {
  }

  lemma QuotientBelow(a: int, b: int, c: int)
    requires b > 0 && 0 <= a < b * c
    ensures 0 <= a / b < c
  {
    var d := a / b;
    assert a == b * d + a % b;
  }

  /** The technicians after `updateTechRating(id, score)`. */
  function Rerated(techs: seq<Technician>, id: string, score: int): seq<Technician> {
    match TechIndex(techs, id)
    case None => techs
    case Some(i) =>
      techs[i := techs[i].(rating := NewAverage(techs[i].rating, techs[i].totalJobs, score))]
  }

  /** Every technician's rating lies within 0..5 stars. */
  predicate RatingsInRange(techs: seq<Technician>) {
    forall k :: 0 <= k < |techs| ==> 0 <= techs[k].rating <= 50
  }

  /** Re-rating changes only the rating of the first technician with the id,
      to `NewAverage` of its old rating and job count, and keeps every rating
      within 0..5 stars for a score of 1..5. */
  lemma ReratedEffect(techs: seq<Technician>, id: string, score: int)
    ensures |Rerated(techs, id, score)| == |techs|
    ensures TechIndex(techs, id).None? ==> Rerated(techs, id, score) == techs
    ensures forall k :: 0 <= k < |techs| && TechIndex(techs, id) != Some(k) ==>
              Rerated(techs, id, score)[k] == techs[k]
    ensures forall k :: 0 <= k < |techs| && TechIndex(techs, id) == Some(k) ==>
              Rerated(techs, id, score)[k] ==
                techs[k].(rating := NewAverage(techs[k].rating, techs[k].totalJobs, score))
    ensures RatingsInRange(techs) && 1 <= score <= 5 ==> RatingsInRange(Rerated(techs, id, score))
  {
    match TechIndex(techs, id)
    case None =>
    case Some(i) =>
      if RatingsInRange(techs) && 1 <= score <= 5 {
        NewAverageInRange(techs[i].rating, techs[i].totalJobs, score);
      }
  }

  /** `updateTechRating`. */
  method UpdateTechRating(st: Store, id: string, score: int)
    modifies st`technicians
    ensures st.technicians == Rerated(old(st.technicians), id, score)
  {
    var index := TechIndex(st.technicians, id);
    if index.None? {
      return;
    }
    var i := index.value;
    var t := st.technicians[i];
    st.technicians := st.technicians[i := t.(rating := NewAverage(t.rating, t.totalJobs, score))];
  }

  /** A `Partial<Technician>`: the fields present in the update. */
  datatype TechnicianPatch = TechnicianPatch(
    id: Option<string>,
    userId: Option<string>,
    name: Option<string>,
    email: Option<string>,
    phone: Option<string>,
    gender: Option<Gender>,
    cluster: Option<string>,
    online: Option<bool>,
    rating: Option<int>,
    totalJobs: Option<nat>,
    earningsToday: Option<int>,
    earningsWeekly: Option<int>,
    earningsTotal: Option<int>,
    createdAt: Option<Timestamp>)

  /** `{ ...t, ...updates }`: each field present in the update replaces the
      technician's. */
  function Patched(t: Technician, u: TechnicianPatch): Technician {
    Technician(
      if u.id.Some? then u.id.value else t.id,
      if u.userId.Some? then u.userId.value else t.userId,
      if u.name.Some? then u.name.value else t.name,
      if u.email.Some? then u.email.value else t.email,
      if u.phone.Some? then u.phone.value else t.phone,
      if u.gender.Some? then u.gender.value else t.gender,
      if u.cluster.Some? then u.cluster.value else t.cluster,
      if u.online.Some? then u.online.value else t.online,
      if u.rating.Some? then u.rating.value else t.rating,
      if u.totalJobs.Some? then u.totalJobs.value else t.totalJobs,
      if u.earningsToday.Some? then u.earningsToday.value else t.earningsToday,
      if u.earningsWeekly.Some? then u.earningsWeekly.value else t.earningsWeekly,
      if u.earningsTotal.Some? then u.earningsTotal.value else t.earningsTotal,
      if u.createdAt.Some? then u.createdAt.value else t.createdAt)
  }

  /** The update that carries no field. */
  const EMPTY_PATCH := TechnicianPatch(None, None, None, None, None, None, None, None, None,
                                       None, None, None, None, None)

  /** The technicians after `updateTechProfile(id, updates)`. */
  function Profiled(techs: seq<Technician>, id: string, u: TechnicianPatch): seq<Technician> {
    match TechIndex(techs, id)
    case None => techs
    case Some(i) => techs[i := Patched(techs[i], u)]
  }

  /** A profile update touches only the first technician with the id, an
      empty update changes nothing, and an update that sets the name and
      nothing else changes only that technician's name. */
  lemma ProfiledEffect(techs: seq<Technician>, id: string, u: TechnicianPatch, name: string)
    ensures |Profiled(techs, id, u)| == |techs|
    ensures forall k :: 0 <= k < |techs| && TechIndex(techs, id) != Some(k) ==>
              Profiled(techs, id, u)[k] == techs[k]
    ensures Profiled(techs, id, EMPTY_PATCH) == techs
    ensures forall k :: 0 <= k < |techs| && TechIndex(techs, id) == Some(k) ==>
              Profiled(techs, id, EMPTY_PATCH.(name := Some(name)))[k] == techs[k].(name := name)
  {
    match TechIndex(techs, id)
    case None =>
    case Some(i) =>
      assert Patched(techs[i], EMPTY_PATCH) == techs[i];
      assert techs[i := techs[i]] == techs;
  }

  /** `updateTechProfile`. */
  method UpdateTechProfile(st: Store, id: string, u: TechnicianPatch)
    modifies st`technicians
    ensures st.technicians == Profiled(old(st.technicians), id, u)
  {
    var index := TechIndex(st.technicians, id);
    if index.None? {
      return;
    }
    st.technicians := st.technicians[index.value := Patched(st.technicians[index.value], u)];
  }
}
