/** The REST views that change the database: replacing a talent's skills
    or a job's types, retrieving a talent profile (which records the
    visit), deleting a talent, and creating jobs, experiences and reviews. */
module Views {
  import opened Common
  import opened Strings
  import opened TalentModels
  import opened JobModels
  import opened ViewRules
  import opened Store

  /** A name table after `get_or_create(name=n)` for each `n` in turn: a
      name is appended only when no row has it yet. */
  function GetOrCreateAll(rows: seq<string>, names: seq<string>): (r: seq<string>)
    ensures rows <= r
    decreases |names|
  {
    if |names| == 0 then rows
    else
      var before := GetOrCreateAll(rows, names[..|names| - 1]);
      var last := names[|names| - 1];
      if last in before then before else before + [last]
  }

  /** After get-or-create of every name, the table holds exactly the old
      rows and the names, and if no name occurred twice in it before, none
      does after: get-or-create never makes two rows with one name. */
  lemma {:induction false} GetOrCreateAllRows(rows: seq<string>, names: seq<string>)
    ensures forall x :: x in GetOrCreateAll(rows, names) <==> x in rows || x in names
    ensures NoDup(rows) ==> NoDup(GetOrCreateAll(rows, names))
    decreases |names|
  {
    if |names| > 0 {
      var init, last := names[..|names| - 1], names[|names| - 1];
      GetOrCreateAllRows(rows, init);
      assert names == init + [last];
    }
  }

  lemma GetOrCreateAllSnoc(rows: seq<string>, names: seq<string>, name: string)
    ensures var before := GetOrCreateAll(rows, names);
            GetOrCreateAll(rows, names + [name]) == if name in before then before else before + [name]
  {
    assert (names + [name])[..|names|] == names;
  }

  /** The body of `SkillView.put` once the checks pass: clear the
      talent's skills, then get-or-create and add each name in turn. */
  method ReplaceSkills(db: Db, pk: int, names: seq<string>)
    requires db.Valid() && pk in db.talents
    modifies db
    ensures db.Valid() && pk in db.talents
    ensures db.talents == old(db.talents)[pk := old(db.talents[pk]).(skills := Distinct(names))]
    ensures db.skillRows == GetOrCreateAll(old(db.skillRows), names)
    ensures db.visits == old(db.visits) && db.jobs == old(db.jobs) && db.nextJobId == old(db.nextJobId)
    ensures db.jobTypeRows == old(db.jobTypeRows)
    ensures db.experiences == old(db.experiences) && db.reviews == old(db.reviews)
  {
    ghost var before, rows := db.talents, db.skillRows;
    db.ClearSkills(pk);
    var i := 0;
    assert Distinct(names[..0]) == {};
    while i < |names|
      invariant 0 <= i <= |names|
      invariant db.Valid() && pk in db.talents
      invariant db.talents == before[pk := before[pk].(skills := Distinct(names[..i]))]
      invariant db.skillRows == GetOrCreateAll(rows, names[..i])
      invariant db.visits == old(db.visits) && db.jobs == old(db.jobs) && db.nextJobId == old(db.nextJobId)
      invariant db.jobTypeRows == old(db.jobTypeRows)
      invariant db.experiences == old(db.experiences) && db.reviews == old(db.reviews)
    {
      ghost var prefix := names[..i];
      db.LinkSkill(pk, names[i]);
      PrefixSnoc(names, i);
      DistinctSnoc(prefix, names[i]);
      GetOrCreateAllSnoc(rows, prefix, names[i]);
      i := i + 1;
    }
    assert names[..|names|] == names;
  }

  /** `SkillView.put`: after the checks of `SkillPutCheck`, the talent's
      skills become exactly the distinct `name` values of the form, each
      missing Skill row is created, and the new skill set is returned.
      When a check fails nothing changes. */
  method PutSkills(db: Db, user: User, pk: int, data: FormData) returns (r: Result<set<string>, ViewError>)
    requires db.Valid()
    modifies db
    ensures db.Valid()
    ensures SkillPutCheck(user, pk, data, old(db.talents)).Some? ==>
              r == Err(SkillPutCheck(user, pk, data, old(db.talents)).value) && unchanged(db)
    ensures SkillPutCheck(user, pk, data, old(db.talents)).None? ==>
              && pk in old(db.talents)
              && r == Ok(Distinct(GetList(data, "name")))
              && db.talents == old(db.talents)[pk := old(db.talents[pk]).(skills := Distinct(GetList(data, "name")))]
              && db.skillRows == GetOrCreateAll(old(db.skillRows), GetList(data, "name"))
              && db.visits == old(db.visits) && db.jobs == old(db.jobs) && db.nextJobId == old(db.nextJobId)
              && db.jobTypeRows == old(db.jobTypeRows)
              && db.experiences == old(db.experiences) && db.reviews == old(db.reviews)
  {
    var check := SkillPutCheck(user, pk, data, db.talents);
    if check.Some? {
      return Err(check.value);
    }
    var names := GetList(data, "name");
    ReplaceSkills(db, pk, names);
    r := Ok(db.talents[pk].skills);
  }

  /** The body of `JobTypeView.put` once the checks pass: clear the job's
      types, then get-or-create and add each name in turn. */
  method ReplaceJobTypes(db: Db, pk: int, names: seq<string>)
    requires db.Valid() && pk in db.jobs
    modifies db
    ensures db.Valid() && pk in db.jobs
    ensures db.jobs == old(db.jobs)[pk := old(db.jobs[pk]).(jobTypes := Distinct(names))]
    ensures db.jobTypeRows == GetOrCreateAll(old(db.jobTypeRows), names)
    ensures db.talents == old(db.talents) && db.visits == old(db.visits) && db.skillRows == old(db.skillRows)
    ensures db.nextJobId == old(db.nextJobId)
    ensures db.experiences == old(db.experiences) && db.reviews == old(db.reviews)
  {
    ghost var before, rows := db.jobs, db.jobTypeRows;
    db.ClearJobTypes(pk);
    var i := 0;
    assert Distinct(names[..0]) == {};
    while i < |names|
      invariant 0 <= i <= |names|
      invariant db.Valid() && pk in db.jobs
      invariant db.jobs == before[pk := before[pk].(jobTypes := Distinct(names[..i]))]
      invariant db.jobTypeRows == GetOrCreateAll(rows, names[..i])
      invariant db.talents == old(db.talents) && db.visits == old(db.visits) && db.skillRows == old(db.skillRows)
      invariant db.nextJobId == old(db.nextJobId)
      invariant db.experiences == old(db.experiences) && db.reviews == old(db.reviews)
    {
      ghost var prefix := names[..i];
      db.LinkJobType(pk, names[i]);
      PrefixSnoc(names, i);
      DistinctSnoc(prefix, names[i]);
      GetOrCreateAllSnoc(rows, prefix, names[i]);
      i := i + 1;
    }
    assert names[..|names|] == names;
  }

  /** `JobTypeView.put`: after the checks of `JobTypePutCheck`, the job's
      types become exactly the distinct `name` values of the form, each
      missing JobType row is created, and the new type set is returned.
      There is no limit on the number of types. */
  method PutJobTypes(db: Db, user: User, pk: int, data: FormData) returns (r: Result<set<string>, ViewError>)
    requires db.Valid()
    modifies db
    ensures db.Valid()
    ensures JobTypePutCheck(user, pk, old(db.jobs)).Some? ==>
              r == Err(JobTypePutCheck(user, pk, old(db.jobs)).value) && unchanged(db)
    ensures JobTypePutCheck(user, pk, old(db.jobs)).None? ==>
              && pk in old(db.jobs)
              && r == Ok(Distinct(GetList(data, "name")))
              && db.jobs == old(db.jobs)[pk := old(db.jobs[pk]).(jobTypes := Distinct(GetList(data, "name")))]
              && db.jobTypeRows == GetOrCreateAll(old(db.jobTypeRows), GetList(data, "name"))
              && db.talents == old(db.talents) && db.visits == old(db.visits) && db.skillRows == old(db.skillRows)
              && db.nextJobId == old(db.nextJobId)
              && db.experiences == old(db.experiences) && db.reviews == old(db.reviews)
  {
    var check := JobTypePutCheck(user, pk, db.jobs);
    if check.Some? {
      return Err(check.value);
    }
    var names := GetList(data, "name");
    ReplaceJobTypes(db, pk, names);
    r := Ok(db.jobs[pk].jobTypes);
  }

  /** `TalentDetail.retrieve`: a missing talent is a 404. Otherwise, when
      the request carries a non-empty session key, the visit goes through
      `increment_unique_visits` before the (updated) row is returned; with
      no session key or an empty one nothing changes. */
  method Retrieve(db: Db, pk: int, sessionKey: Option<string>) returns (r: Result<Talent, ViewError>)
    requires db.Valid()
    modifies db
    ensures db.Valid()
    ensures pk !in old(db.talents) ==> r == Err(NotFound) && unchanged(db)
    ensures pk in old(db.talents) && (sessionKey.None? || sessionKey.value == "") ==>
              r == Ok(old(db.talents[pk])) && unchanged(db)
    ensures pk in old(db.talents) && sessionKey.Some? && sessionKey.value != "" ==>
              && pk in db.talents && r == Ok(db.talents[pk])
              && (db.talents[pk].profileVisits, db.visits)
                 == UniqueVisit(old(db.talents[pk].profileVisits), old(db.visits), pk, sessionKey.value)
              && db.talents == old(db.talents)[pk := old(db.talents[pk]).(profileVisits := db.talents[pk].profileVisits)]
              && db.skillRows == old(db.skillRows) && db.jobs == old(db.jobs) && db.nextJobId == old(db.nextJobId)
              && db.jobTypeRows == old(db.jobTypeRows)
              && db.experiences == old(db.experiences) && db.reviews == old(db.reviews)
  {
    if pk !in db.talents {
      return Err(NotFound);
    }
    if sessionKey.Some? && sessionKey.value != "" {
      db.IncrementUniqueVisits(pk, sessionKey.value);
    }
    r := Ok(db.talents[pk]);
  }

  /** `TalentDetail.destroy`: anyone who is not a talent gets a 403; any
      talent may delete any existing talent (there is no ownership check),
      and the talent's visits, experiences and reviews go with it. */
  method Destroy(db: Db, user: User, pk: int) returns (r: Option<ViewError>)
    requires db.Valid()
    modifies db
    ensures db.Valid()
    ensures !user.TalentUser? ==> r == Some(Forbidden) && unchanged(db)
    ensures user.TalentUser? && pk !in old(db.talents) ==> r == Some(NotFound) && unchanged(db)
    ensures user.TalentUser? && pk in old(db.talents) ==>
              && r.None?
              && db.talents == old(db.talents) - {pk}
              && db.visits == Filter(old(db.visits), (v: Visit) => v.talent != pk)
              && db.experiences == Filter(old(db.experiences), (e: Experience) => e.talent != pk)
              && db.reviews == Filter(old(db.reviews), (rv: Review) => rv.talent != pk)
              && db.skillRows == old(db.skillRows) && db.jobs == old(db.jobs)
              && db.nextJobId == old(db.nextJobId) && db.jobTypeRows == old(db.jobTypeRows)
  {
    if !user.TalentUser? {
      return Some(Forbidden);
    }
    if pk !in db.talents {
      return Some(NotFound);
    }
    db.DeleteTalent(pk);
    r := None;
  }

  /** A POST to `JobList`: the view's permission class refuses a request
      without credentials (401). Then `perform_create` saves a company's
      job with the company as its owner; for anyone else the 403 response
      is built and dropped, so nothing is saved and the request still
      reports success. */
  method CreateJob(db: Db, user: User, title: string) returns (r: Result<Option<int>, ViewError>)
    requires db.Valid()
    modifies db
    ensures db.Valid()
    ensures user.Anonymous? ==> r == Err(NotAuthenticated) && unchanged(db)
    ensures user.TalentUser? ==> r == Ok(None) && unchanged(db)
    ensures user.CompanyUser? ==>
              && r == Ok(Some(old(db.nextJobId))) && old(db.nextJobId) !in old(db.jobs)
              && db.jobs == old(db.jobs)[old(db.nextJobId) := Job(old(db.nextJobId), user.companyId, title, {})]
              && db.nextJobId == old(db.nextJobId) + 1
              && db.talents == old(db.talents) && db.visits == old(db.visits) && db.skillRows == old(db.skillRows)
              && db.jobTypeRows == old(db.jobTypeRows)
              && db.experiences == old(db.experiences) && db.reviews == old(db.reviews)
  {
    var denied := AuthenticatedOrReadOnly(POST, user);
    if denied.Some? {
      return Err(denied.value);
    }
    if !user.CompanyUser? {
      return Ok(None);
    }
    var id := db.InsertJob(user.companyId, title);
    r := Ok(Some(id));
  }

  /** `ExperienceList.perform_create`: a talent's experience is saved with
      the talent as its owner; for anyone else nothing is saved. An
      authenticated talent is always an existing row. */
  method CreateExperience(db: Db, user: User, companyName: string, role: string) returns (saved: bool)
    requires db.Valid()
    requires user.TalentUser? ==> user.talentId in db.talents
    modifies db
    ensures db.Valid()
    ensures saved <==> user.TalentUser?
    ensures !saved ==> unchanged(db)
    ensures saved ==>
              && db.experiences == old(db.experiences) + [Experience(user.talentId, companyName, role)]
              && db.talents == old(db.talents) && db.visits == old(db.visits) && db.skillRows == old(db.skillRows)
              && db.jobs == old(db.jobs) && db.nextJobId == old(db.nextJobId) && db.jobTypeRows == old(db.jobTypeRows)
              && db.reviews == old(db.reviews)
  {
    if !user.TalentUser? {
      return false;
    }
    db.InsertExperience(Experience(user.talentId, companyName, role));
    saved := true;
  }

  /** `ReviewList.perform_create`: the serializer first rejects a review
      of a talent that does not exist (400); then a company's review is
      saved with the company as reviewer, and for anyone else nothing is
      saved. */
  method CreateReview(db: Db, user: User, talent: int, rating: nat) returns (r: Result<bool, ViewError>)
    requires db.Valid()
    modifies db
    ensures db.Valid()
    ensures talent !in old(db.talents) ==> r == Err(BadRequest) && unchanged(db)
    ensures talent in old(db.talents) && !user.CompanyUser? ==> r == Ok(false) && unchanged(db)
    ensures talent in old(db.talents) && user.CompanyUser? ==>
              && r == Ok(true)
              && db.reviews == old(db.reviews) + [Review(talent, user.companyId, rating)]
              && db.talents == old(db.talents) && db.visits == old(db.visits) && db.skillRows == old(db.skillRows)
              && db.jobs == old(db.jobs) && db.nextJobId == old(db.nextJobId) && db.jobTypeRows == old(db.jobTypeRows)
              && db.experiences == old(db.experiences)
  {
    if talent !in db.talents {
      return Err(BadRequest);
    }
    if !user.CompanyUser? {
      return Ok(false);
    }
    db.InsertReview(Review(talent, user.companyId, rating));
    r := Ok(true);
  }
}
