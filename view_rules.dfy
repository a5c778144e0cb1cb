/** The decisions of the REST views that change nothing: which object a
    request may reach (404 and 403 answers), and which rows a list request
    returns in which order. */
module ViewRules {
  import opened Common
  import opened Strings
  import opened TalentModels
  import opened JobModels

  /** The error answers of the views. `Forbidden` is a 403 response the
      view returns itself; `PermissionDenied` is a 403 raised as an
      exception; `NotAuthenticated` a 401 raised when a request without
      credentials is denied; `NotFound` a 404; `BadRequest` a 400;
      `ServerError` a 500 from an exception the view does not expect. */
  datatype ViewError = Forbidden | PermissionDenied | NotAuthenticated | NotFound | BadRequest | ServerError

  /** Form data (`request.data` as a QueryDict): each key with its list of
      values. */
  type FormData = map<string, seq<string>>

  /** `data.getlist(key)`: the values under `key`, or none. */
  function GetList(data: FormData, key: string): (r: seq<string>)
    ensures key in data ==> r == data[key]
    ensures key !in data ==> r == []
  {
    if key in data then data[key] else []
  }

  /** The most keys a skills update may carry. */
  const MaxSkillFields := 5

  // ---------------------------------------------------------------------
  // Object access

  /** The framework's `IsAuthenticatedOrReadOnly`, as `JobList` and
      `JobTypeView` use it with token authentication: a safe request
      passes; any other request without credentials is refused with 401
      before the handler runs. */
  function AuthenticatedOrReadOnly(httpMethod: HttpMethod, user: User): (r: Option<ViewError>)
    ensures r.None? <==> IsSafe(httpMethod) || !user.Anonymous?
    ensures r.Some? ==> r.value == NotAuthenticated
  {
    if IsSafe(httpMethod) || !user.Anonymous? then None else Some(NotAuthenticated)
  }

  /** `SkillView.get_queryset`: the skills of talent `pk`. A missing talent
      is a 404; a request other than GET by anyone but that talent is
      denied; a GET by anyone succeeds. */
  function SkillQueryset(httpMethod: HttpMethod, user: User, pk: int, talents: map<int, Talent>)
    : (r: Result<set<string>, ViewError>)
    ensures r == Err(NotFound) <==> pk !in talents
    ensures r == Err(PermissionDenied) <==> pk in talents && httpMethod != GET && user != TalentUser(pk)
    ensures r.Ok? <==> pk in talents && (httpMethod == GET || user == TalentUser(pk))
    ensures r.Ok? ==> r.value == talents[pk].skills
  {
    if pk !in talents then Err(NotFound)
    else if user != TalentUser(pk) && httpMethod != GET then Err(PermissionDenied)
    else Ok(talents[pk].skills)
  }

  /** `JobTypeView.get_queryset`: the job types of job `pk`, with the job's
      company as the owner. */
  function JobTypeQueryset(httpMethod: HttpMethod, user: User, pk: int, jobs: map<int, Job>)
    : (r: Result<set<string>, ViewError>)
    ensures r == Err(NotFound) <==> pk !in jobs
    ensures r == Err(PermissionDenied) <==> pk in jobs && httpMethod != GET && user != CompanyUser(jobs[pk].company)
    ensures r.Ok? <==> pk in jobs && (httpMethod == GET || user == CompanyUser(jobs[pk].company))
    ensures r.Ok? ==> r.value == jobs[pk].jobTypes
  {
    if pk !in jobs then Err(NotFound)
    else if user != CompanyUser(jobs[pk].company) && httpMethod != GET then Err(PermissionDenied)
    else Ok(jobs[pk].jobTypes)
  }

  /** `get_object` of the views that update one field of a talent (avatar,
      language, timezone, about-me, summary, username): only the talent
      itself may reach its own row. A user who is not a talent is denied:
      403, or 401 without credentials, taking the authenticator to announce
      an `authenticate_header`. A missing row goes to
      `handle_not_found`, which calls a `raise_exception` the view class
      does not define, so the request ends in a 500. */
  function UpdateTarget(user: User, pk: int, talents: map<int, Talent>): (r: Result<int, ViewError>)
    ensures r.Ok? <==> user == TalentUser(pk) && pk in talents
    ensures r.Ok? ==> r.value == pk
    ensures r == Err(ServerError) <==> user.TalentUser? && pk !in talents
    ensures user.Anonymous? ==> r == Err(NotAuthenticated)
    ensures user.CompanyUser? ==> r == Err(PermissionDenied)
    ensures user.TalentUser? && pk in talents && user != TalentUser(pk) ==> r == Err(PermissionDenied)
  {
    if user.Anonymous? then Err(NotAuthenticated)
    else if !user.TalentUser? then Err(PermissionDenied)
    else if pk !in talents then Err(ServerError)
    else if user != TalentUser(pk) then Err(PermissionDenied)
    else Ok(pk)
  }

  /** The checks `SkillView.put` makes before it touches the skill set:
      None when the update goes ahead. The size limit counts the keys of
      the form data, as written. */
  function SkillPutCheck(user: User, pk: int, data: FormData, talents: map<int, Talent>): (r: Option<ViewError>)
    ensures r.None? <==> user == TalentUser(pk) && pk in talents && |data.Keys| <= MaxSkillFields
    ensures !user.TalentUser? ==> r == Some(Forbidden)
    ensures user.TalentUser? && pk !in talents ==> r == Some(NotFound)
    ensures user.TalentUser? && pk in talents && user != TalentUser(pk) ==> r == Some(PermissionDenied)
    ensures user == TalentUser(pk) && pk in talents && |data.Keys| > MaxSkillFields ==> r == Some(BadRequest)
  {
    if !user.TalentUser? then Some(Forbidden)
    else
      match SkillQueryset(PUT, user, pk, talents)
      case Err(e) => Some(e)
      case Ok(_) => if |data.Keys| > MaxSkillFields then Some(BadRequest) else None
  }

  /** The checks a PUT to `JobTypeView` passes before the type set is
      touched: the view's permission class first, then the checks of
      `put` itself. */
  function JobTypePutCheck(user: User, pk: int, jobs: map<int, Job>): (r: Option<ViewError>)
    ensures r.None? <==> pk in jobs && user == CompanyUser(jobs[pk].company)
    ensures user.Anonymous? ==> r == Some(NotAuthenticated)
    ensures user.TalentUser? ==> r == Some(Forbidden)
    ensures user.CompanyUser? && pk !in jobs ==> r == Some(NotFound)
    ensures user.CompanyUser? && pk in jobs && user != CompanyUser(jobs[pk].company) ==> r == Some(PermissionDenied)
  {
    if AuthenticatedOrReadOnly(PUT, user).Some? then AuthenticatedOrReadOnly(PUT, user)
    else if !user.CompanyUser? then Some(Forbidden)
    else
      match JobTypeQueryset(PUT, user, pk, jobs)
      case Err(e) => Some(e)
      case Ok(_) => None
  }

  // ---------------------------------------------------------------------
  // Filtering

  /** The condition `Q(name__iexact=v1) | Q(name__iexact=v2) | ...` built
      one requested value at a time, applied to a row's set of names: it
      holds exactly when some requested value equals some name, ignoring
      case. */
  function MatchesAny(requested: seq<string>, names: set<string>): (r: bool)
    ensures r <==> exists q, n :: q in requested && n in names && EqualsIgnoreCase(q, n)
    decreases |requested|
  {
    if |requested| == 0 then false
    else
      var rest := MatchesAny(requested[1..], names);
      assert forall q :: q in requested <==> q == requested[0] || q in requested[1..];
      (exists n :: n in names && EqualsIgnoreCase(requested[0], n)) || rest
  }

  /** `JobList.get_queryset`: with no `job_types` parameter every job, in
      order; otherwise exactly the jobs with a type matching one of the
      requested names, in their original order. */
  function JobQueryset(jobs: seq<Job>, jobTypes: seq<string>): (r: seq<Job>)
    ensures |jobTypes| == 0 ==> r == jobs
    ensures Subsequence(r, jobs)
    ensures forall j :: j in r <==>
              j in jobs && (|jobTypes| == 0 || exists q, n :: q in jobTypes && n in j.jobTypes && EqualsIgnoreCase(q, n))
  {
    if |jobTypes| == 0 then (SubsequenceRefl(jobs); jobs) else Filter(jobs, (j: Job) => MatchesAny(jobTypes, j.jobTypes))
  }

  /** The `skills` filter of `TalentList.get_queryset`: the matching
      talents, in their original order. */
  function FilterBySkills(talents: seq<Talent>, skills: seq<string>): (r: seq<Talent>)
    ensures |skills| == 0 ==> r == talents
    ensures Subsequence(r, talents)
    ensures forall t :: t in r <==>
              t in talents && (|skills| == 0 || exists q, n :: q in skills && n in t.skills && EqualsIgnoreCase(q, n))
  {
    if |skills| == 0 then (SubsequenceRefl(talents); talents) else Filter(talents, (t: Talent) => MatchesAny(skills, t.skills))
  }

  // ---------------------------------------------------------------------
  // Ordering by average review rating

  type Positive = n: int | n >= 1 witness 1

  /** `Avg("review__rating")` as an exact fraction: `Unrated` (SQL NULL)
      when the talent has no review. */
  datatype Rating = Unrated | Average(sum: nat, count: Positive)

  /** The review rows of talent `id` (the join `review__` follows), in
      table order. */
  function ReviewsOf(reviews: seq<Review>, id: int): (r: seq<Review>)
    ensures Subsequence(r, reviews)
    ensures forall rv :: rv in r <==> rv in reviews && rv.talent == id
  {
    Filter(reviews, (rv: Review) => rv.talent == id)
  }

  /** Equal review rows are all reached by the join: a row of talent `id`
      occurs in `ReviewsOf` as often as in the table, any other row never. */
  lemma ReviewsOfCount(reviews: seq<Review>, id: int)
    ensures forall rv :: multiset(ReviewsOf(reviews, id))[rv]
                         == if rv.talent == id then multiset(reviews)[rv] else 0
  {
    FilterCount(reviews, (rv: Review) => rv.talent == id);
  }

  lemma ReviewsOfCons(reviews: seq<Review>, id: int)
    requires |reviews| > 0
    ensures ReviewsOf(reviews, id)
            == (if reviews[0].talent == id then [reviews[0]] else []) + ReviewsOf(reviews[1..], id)
  {
  }

  /** The ratings of the reviews of talent `id`, in table order: one entry
      per review row, so a rating given twice counts twice. */
  function RatingsOf(reviews: seq<Review>, id: int): (r: seq<nat>)
    ensures |r| == |ReviewsOf(reviews, id)|
    ensures forall i :: 0 <= i < |r| ==> r[i] == ReviewsOf(reviews, id)[i].rating
    ensures |r| == 0 <==> forall rv :: rv in reviews ==> rv.talent != id
    ensures forall x :: x in r <==> exists rv :: rv in reviews && rv.talent == id && rv.rating == x
    decreases |reviews|
  {
    if |reviews| == 0 then []
    else
      assert forall rv :: rv in reviews <==> rv == reviews[0] || rv in reviews[1..];
      ReviewsOfCons(reviews, id);
      (if reviews[0].talent == id then [reviews[0].rating] else []) + RatingsOf(reviews[1..], id)
  }

  /** The total of the ratings of some review rows. */
  function TotalRating(rows: seq<Review>): nat
    decreases |rows|
  {
    if |rows| == 0 then 0 else rows[0].rating + TotalRating(rows[1..])
  }

  /** Summing a list of ratings taken row by row gives the rows' total. */
  lemma {:induction false} SumOfRatings(ratings: seq<nat>, rows: seq<Review>)
    requires |ratings| == |rows|
    requires forall i :: 0 <= i < |rows| ==> ratings[i] == rows[i].rating
    ensures Sum(ratings) == TotalRating(rows)
    decreases |rows|
  {
    if |rows| > 0 {
      SumOfRatings(ratings[1..], rows[1..]);
    }
  }

  function Sum(s: seq<nat>): nat
    decreases |s|
  {
    if |s| == 0 then 0 else s[0] + Sum(s[1..])
  }

  /** A sum of values none above `m` is at most `m` times their count. */
  lemma {:induction false} SumAtMost(s: seq<nat>, m: nat)
    requires forall x :: x in s ==> x <= m
    ensures Sum(s) <= m * |s|
    decreases |s|
  {
    if |s| > 0 {
      assert s[0] in s;
      assert forall x :: x in s[1..] ==> x in s;
      SumAtMost(s[1..], m);
      assert m * |s| == m + m * |s[1..]|;
    }
  }

  /** `Avg("review__rating")` of talent `id`: NULL without reviews,
      otherwise the total of its review rows' ratings over their number. */
  function AverageRating(reviews: seq<Review>, id: int): (r: Rating)
    ensures r.Unrated? <==> forall rv :: rv in reviews ==> rv.talent != id
    ensures r.Average? ==> r.sum == TotalRating(ReviewsOf(reviews, id)) && r.count == |ReviewsOf(reviews, id)|
  {
    var ratings := RatingsOf(reviews, id);
    SumOfRatings(ratings, ReviewsOf(reviews, id));
    if |ratings| == 0 then Unrated else Average(Sum(ratings), |ratings|)
  }

  /** A talent's own review rows are all of its reviews. */
  lemma {:induction false} ReviewsOfOwn(reviews: seq<Review>, id: int)
    requires forall i :: 0 <= i < |reviews| ==> reviews[i].talent == id
    ensures ReviewsOf(reviews, id) == reviews
    decreases |reviews|
  {
    if |reviews| > 0 {
      ReviewsOfCons(reviews, id);
      ReviewsOfOwn(reviews[1..], id);
    }
  }

  /** Repeated ratings each count: ratings 5, 5 and 1 average 11/3. */
  lemma AverageCountsRepeats(id: int, a: int, b: int, c: int)
    ensures AverageRating([Review(id, a, 5), Review(id, b, 5), Review(id, c, 1)], id) == Average(11, 3)
  {
    var reviews := [Review(id, a, 5), Review(id, b, 5), Review(id, c, 1)];
    ReviewsOfOwn(reviews, id);
    assert reviews[1..] == [Review(id, b, 5), Review(id, c, 1)];
    assert reviews[1..][1..] == [Review(id, c, 1)];
    assert TotalRating(reviews[1..][1..]) == 1 by {
      assert reviews[1..][1..][1..] == [];
    }
    assert TotalRating(reviews) == 11;
    assert reviews[0] in reviews;
  }

  /** When every rating lies at or below `m`, so does a talent's average. */
  lemma AverageAtMost(reviews: seq<Review>, id: int, m: nat)
    requires forall rv :: rv in reviews ==> rv.rating <= m
    ensures AtMost(AverageRating(reviews, id), Average(m, 1))
  {
    var ratings := RatingsOf(reviews, id);
    SumAtMost(ratings, m);
  }

  /** `a <= b` on average ratings, comparing fractions by cross
      multiplication; an unrated talent sorts below every rated one. */
  predicate AtMost(a: Rating, b: Rating)
  {
    match (a, b)
    case (Unrated, _) => true
    case (Average(_, _), Unrated) => false
    case (Average(s1, c1), Average(s2, c2)) => s1 * c2 <= s2 * c1
  }

  lemma AtMostTotal(a: Rating, b: Rating)
    ensures AtMost(a, b) || AtMost(b, a)
  {
  }

  lemma MulMonotone(x: int, y: int, k: nat)
    requires x <= y
    ensures x * k <= y * k
  {
  }

  lemma MulStrict(x: int, y: int, k: nat)
    requires k >= 1
    ensures x < y ==> x * k < y * k
  {
    if x < y {
      MulMonotone(x + 1, y, k);
    }
  }

  /** Average ratings compare transitively: a/b <= c/d <= e/f gives
      a/b <= e/f. */
  lemma AtMostTransitive(a: Rating, b: Rating, c: Rating)
    requires AtMost(a, b) && AtMost(b, c)
    ensures AtMost(a, c)
  {
    if a.Average? && b.Average? && c.Average? {
      var s1, c1, s2, c2, s3, c3 := a.sum, a.count, b.sum, b.count, c.sum, c.count;
      MulMonotone(s1 * c2, s2 * c1, c3);
      MulMonotone(s2 * c3, s3 * c2, c1);
      assert (s1 * c3) * c2 <= (s3 * c1) * c2 by {
        assert (s1 * c2) * c3 == (s1 * c3) * c2;
        assert (s2 * c1) * c3 == (s2 * c3) * c1;
        assert (s3 * c2) * c1 == (s3 * c1) * c2;
      }
      MulStrict(s3 * c1, s1 * c3, c2);
    }
  }

  /** Whether a talent rated `x` may come before one rated `y`: a higher
      or equal average first when descending, a lower or equal one first
      when ascending. */
  predicate Precedes(descending: bool, x: Rating, y: Rating)
  {
    if descending then AtMost(y, x) else AtMost(x, y)
  }

  lemma PrecedesFlip(descending: bool, x: Rating, y: Rating)
    requires !Precedes(descending, x, y)
    ensures Precedes(descending, y, x)
  {
    AtMostTotal(x, y);
  }

  /** Each talent may precede the next one, by the ratings `key` gives. */
  predicate SortedBy(key: Talent -> Rating, descending: bool, s: seq<Talent>)
  {
    forall i :: 0 <= i < |s| - 1 ==> Precedes(descending, key(s[i]), key(s[i + 1]))
  }

  lemma SortedCons(key: Talent -> Rating, descending: bool, x: Talent, s: seq<Talent>)
    requires SortedBy(key, descending, s)
    requires |s| == 0 || Precedes(descending, key(x), key(s[0]))
    ensures SortedBy(key, descending, [x] + s)
  {
    var r := [x] + s;
    assert forall i :: 1 <= i < |r| - 1 ==> r[i] == s[i - 1] && r[i + 1] == s[i];
  }

  function InsertBy(key: Talent -> Rating, descending: bool, t: Talent, s: seq<Talent>): (r: seq<Talent>)
    requires SortedBy(key, descending, s)
    ensures SortedBy(key, descending, r)
    ensures multiset(r) == multiset(s) + multiset{t}
    ensures |r| == |s| + 1 && (r[0] == t || (|s| > 0 && r[0] == s[0]))
    decreases |s|
  {
    if |s| == 0 || Precedes(descending, key(t), key(s[0])) then
      SortedCons(key, descending, t, s);
      [t] + s
    else
      PrecedesFlip(descending, key(t), key(s[0]));
      var rest := InsertBy(key, descending, t, s[1..]);
      assert s == [s[0]] + s[1..];
      SortedCons(key, descending, s[0], rest);
      [s[0]] + rest
  }

  /** A stable insertion sort of `s` by the ratings `key` gives. */
  function SortBy(key: Talent -> Rating, descending: bool, s: seq<Talent>): (r: seq<Talent>)
    ensures SortedBy(key, descending, r)
    ensures multiset(r) == multiset(s)
    decreases |s|
  {
    if |s| == 0 then []
    else
      assert s == [s[0]] + s[1..];
      InsertBy(key, descending, s[0], SortBy(key, descending, s[1..]))
  }

  /** In a sorted list every earlier talent may precede every later one:
      a descending list is non-increasing in rating across the whole list,
      an ascending one non-decreasing. */
  lemma {:induction false} SortedPairwise(key: Talent -> Rating, descending: bool, s: seq<Talent>, i: int, j: int)
    requires SortedBy(key, descending, s)
    requires 0 <= i < j < |s|
    ensures Precedes(descending, key(s[i]), key(s[j]))
    decreases j - i
  {
    if j > i + 1 {
      SortedPairwise(key, descending, s, i + 1, j);
      if descending {
        AtMostTransitive(key(s[j]), key(s[i + 1]), key(s[i]));
      } else {
        AtMostTransitive(key(s[i]), key(s[i + 1]), key(s[j]));
      }
    }
  }

  /** The rating `order_by("average_rating")` sorts a talent by. */
  function RatingKey(reviews: seq<Review>): Talent -> Rating
  {
    (t: Talent) => AverageRating(reviews, t.id)
  }

  /** `TalentList.get_queryset`: the skills filter, then ordering by
      average rating for `sort_by=most_experienced` (descending) or
      `least_experienced` (ascending); any other value keeps the filtered
      order. */
  function TalentQueryset(talents: seq<Talent>, reviews: seq<Review>, skills: seq<string>, sortBy: Option<string>)
    : (r: seq<Talent>)
    ensures multiset(r) == multiset(FilterBySkills(talents, skills))
    ensures sortBy == Some("most_experienced") ==> SortedBy(RatingKey(reviews), true, r)
    ensures sortBy == Some("least_experienced") ==> SortedBy(RatingKey(reviews), false, r)
    ensures sortBy != Some("most_experienced") && sortBy != Some("least_experienced")
            ==> r == FilterBySkills(talents, skills)
  {
    var filtered := FilterBySkills(talents, skills);
    if sortBy == Some("most_experienced") then SortBy(RatingKey(reviews), true, filtered)
    else if sortBy == Some("least_experienced") then SortBy(RatingKey(reviews), false, filtered)
    else filtered
  }
}
