/** The database as the views and managers use it: the Talent and Job
    tables, the UniqueProfileVisit table, the Skill and JobType tables, and
    the Experience and Review tables. Each method is one ORM operation; the
    uniqueness constraints of the schema are the invariant `Valid`. */
module Store {
  import opened Common
  import opened TalentModels
  import opened JobModels

  /** Talent rows sit under their own primary key, Skill names are unique
      and every skill link names an existing Skill row. */
  ghost predicate TalentTableOk(talents: map<int, Talent>, skillRows: seq<string>)
  {
    && (forall id :: id in talents ==> talents[id].id == id)
    && NoDup(skillRows)
    && (forall id, name :: id in talents && name in talents[id].skills ==> name in skillRows)
  }

  /** At most one visit row per (talent, session key), each for an existing
      talent. */
  ghost predicate VisitTableOk(visits: seq<Visit>, talents: map<int, Talent>)
  {
    NoDup(visits) && forall v :: v in visits ==> v.talent in talents
  }

  /** Job rows sit under their own primary key, below the next key to hand
      out; JobType names are unique and every type link names an existing
      JobType row. */
  ghost predicate JobTableOk(jobs: map<int, Job>, nextJobId: int, jobTypeRows: seq<string>)
  {
    && (forall id :: id in jobs ==> jobs[id].id == id && id < nextJobId)
    && NoDup(jobTypeRows)
    && (forall id, name :: id in jobs && name in jobs[id].jobTypes ==> name in jobTypeRows)
  }

  /** Every experience and review belongs to an existing talent. */
  ghost predicate OwnedRowsOk(experiences: seq<Experience>, reviews: seq<Review>, talents: map<int, Talent>)
  {
    && (forall e :: e in experiences ==> e.talent in talents)
    && (forall r :: r in reviews ==> r.talent in talents)
  }

  /** Removing a talent together with every row that refers to it keeps
      the foreign keys to the Talent table intact. */
  lemma CascadeKeepsTables(talents: map<int, Talent>, skillRows: seq<string>, visits: seq<Visit>,
                           experiences: seq<Experience>, reviews: seq<Review>, id: int)
    requires TalentTableOk(talents, skillRows) && VisitTableOk(visits, talents)
    requires OwnedRowsOk(experiences, reviews, talents)
    ensures TalentTableOk(talents - {id}, skillRows)
    ensures VisitTableOk(Filter(visits, (v: Visit) => v.talent != id), talents - {id})
    ensures OwnedRowsOk(Filter(experiences, (e: Experience) => e.talent != id),
                        Filter(reviews, (r: Review) => r.talent != id), talents - {id})
  {
  }

  class Db {
    var talents: map<int, Talent>
    var visits: seq<Visit>
    var skillRows: seq<string>
    var jobs: map<int, Job>
    var nextJobId: int
    var jobTypeRows: seq<string>
    var experiences: seq<Experience>
    var reviews: seq<Review>

    /** Primary keys match the rows, `unique_together = (talent,
        session_key)` holds, Skill and JobType names are unique, and every
        foreign key (visit, experience and review to talent; m2m links to
        Skill and JobType rows) points at an existing row. */
    ghost predicate Valid()
      reads this
    {
      && TalentTableOk(talents, skillRows)
      && VisitTableOk(visits, talents)
      && JobTableOk(jobs, nextJobId, jobTypeRows)
      && OwnedRowsOk(experiences, reviews, talents)
    }

    constructor ()
      ensures Valid()
      ensures talents == map[] && visits == [] && skillRows == [] && jobs == map[]
      ensures jobTypeRows == [] && experiences == [] && reviews == []
      ensures nextJobId == 1
    {
      talents, visits, skillRows := map[], [], [];
      jobs, nextJobId, jobTypeRows := map[], 1, [];
      experiences, reviews := [], [];
    }

    /** `Talent.increment_profile_visits`: the counter rises by one and the
        row is saved; nothing else changes. */
    method IncrementProfileVisits(id: int)
      requires Valid() && id in talents
      modifies this
      ensures Valid()
      ensures talents == old(talents)[id := old(talents[id]).(profileVisits := old(talents[id].profileVisits) + 1)]
      ensures visits == old(visits) && skillRows == old(skillRows) && jobs == old(jobs)
      ensures nextJobId == old(nextJobId) && jobTypeRows == old(jobTypeRows)
      ensures experiences == old(experiences) && reviews == old(reviews)
    {
      var t := talents[id];
      talents := talents[id := t.(profileVisits := t.profileVisits + 1)];
    }

    /** `Talent.increment_unique_visits`: when no visit row exists for this
        talent and session key, one is created and the counter rises;
        otherwise nothing changes. The new counter and visit table are
        those of `UniqueVisit`; the talent's other fields and every other
        talent are unchanged. */
    method IncrementUniqueVisits(id: int, sessionKey: string)
      requires Valid() && id in talents
      modifies this
      ensures Valid()
      ensures id in talents
      ensures (talents[id].profileVisits, visits)
              == UniqueVisit(old(talents[id].profileVisits), old(visits), id, sessionKey)
      ensures talents == old(talents)[id := old(talents[id]).(profileVisits := talents[id].profileVisits)]
      ensures skillRows == old(skillRows) && jobs == old(jobs)
      ensures nextJobId == old(nextJobId) && jobTypeRows == old(jobTypeRows)
      ensures experiences == old(experiences) && reviews == old(reviews)
    {
      if Visit(id, sessionKey) !in visits {
        visits := visits + [Visit(id, sessionKey)];
        IncrementProfileVisits(id);
      }
    }

    /** `Skill.objects.get_or_create(name=...)`: a row is added only when no
        Skill has that name. */
    method GetOrCreateSkill(name: string) returns (created: bool)
      requires Valid()
      modifies this
      ensures Valid()
      ensures created <==> name !in old(skillRows)
      ensures skillRows == if created then old(skillRows) + [name] else old(skillRows)
      ensures talents == old(talents) && visits == old(visits) && jobs == old(jobs)
      ensures nextJobId == old(nextJobId) && jobTypeRows == old(jobTypeRows)
      ensures experiences == old(experiences) && reviews == old(reviews)
    {
      created := name !in skillRows;
      if created {
        skillRows := skillRows + [name];
      }
    }

    /** `JobType.objects.get_or_create(name=...)`. */
    method GetOrCreateJobType(name: string) returns (created: bool)
      requires Valid()
      modifies this
      ensures Valid()
      ensures created <==> name !in old(jobTypeRows)
      ensures jobTypeRows == if created then old(jobTypeRows) + [name] else old(jobTypeRows)
      ensures talents == old(talents) && visits == old(visits) && skillRows == old(skillRows)
      ensures jobs == old(jobs) && nextJobId == old(nextJobId)
      ensures experiences == old(experiences) && reviews == old(reviews)
    {
      created := name !in jobTypeRows;
      if created {
        jobTypeRows := jobTypeRows + [name];
      }
    }

    /** `talent.skills.clear()`. */
    method ClearSkills(id: int)
      requires Valid() && id in talents
      modifies this
      ensures Valid()
      ensures talents == old(talents)[id := old(talents[id]).(skills := {})]
      ensures visits == old(visits) && skillRows == old(skillRows) && jobs == old(jobs)
      ensures nextJobId == old(nextJobId) && jobTypeRows == old(jobTypeRows)
      ensures experiences == old(experiences) && reviews == old(reviews)
    {
      talents := talents[id := talents[id].(skills := {})];
    }

    /** `talent.skills.add(skill)` for an existing Skill row. */
    method AddSkill(id: int, name: string)
      requires Valid() && id in talents && name in skillRows
      modifies this
      ensures Valid()
      ensures talents == old(talents)[id := old(talents[id]).(skills := old(talents[id].skills) + {name})]
      ensures visits == old(visits) && skillRows == old(skillRows) && jobs == old(jobs)
      ensures nextJobId == old(nextJobId) && jobTypeRows == old(jobTypeRows)
      ensures experiences == old(experiences) && reviews == old(reviews)
    {
      talents := talents[id := talents[id].(skills := talents[id].skills + {name})];
    }

    /** One step of a skills update: `get_or_create` the Skill row, then
        link it to the talent. */
    method LinkSkill(id: int, name: string)
      requires Valid() && id in talents
      modifies this
      ensures Valid()
      ensures talents == old(talents)[id := old(talents[id]).(skills := old(talents[id].skills) + {name})]
      ensures skillRows == if name in old(skillRows) then old(skillRows) else old(skillRows) + [name]
      ensures visits == old(visits) && jobs == old(jobs)
      ensures nextJobId == old(nextJobId) && jobTypeRows == old(jobTypeRows)
      ensures experiences == old(experiences) && reviews == old(reviews)
    {
      var _ := GetOrCreateSkill(name);
      AddSkill(id, name);
    }

    /** `job.job_types.clear()`. */
    method ClearJobTypes(id: int)
      requires Valid() && id in jobs
      modifies this
      ensures Valid()
      ensures jobs == old(jobs)[id := old(jobs[id]).(jobTypes := {})]
      ensures talents == old(talents) && visits == old(visits) && skillRows == old(skillRows)
      ensures nextJobId == old(nextJobId) && jobTypeRows == old(jobTypeRows)
      ensures experiences == old(experiences) && reviews == old(reviews)
    {
      jobs := jobs[id := jobs[id].(jobTypes := {})];
    }

    /** `job.job_types.add(job_type)` for an existing JobType row. */
    method AddJobType(id: int, name: string)
      requires Valid() && id in jobs && name in jobTypeRows
      modifies this
      ensures Valid()
      ensures jobs == old(jobs)[id := old(jobs[id]).(jobTypes := old(jobs[id].jobTypes) + {name})]
      ensures talents == old(talents) && visits == old(visits) && skillRows == old(skillRows)
      ensures nextJobId == old(nextJobId) && jobTypeRows == old(jobTypeRows)
      ensures experiences == old(experiences) && reviews == old(reviews)
    {
      jobs := jobs[id := jobs[id].(jobTypes := jobs[id].jobTypes + {name})];
    }

    /** One step of a job-types update: `get_or_create` the JobType row,
        then link it to the job. */
    method LinkJobType(id: int, name: string)
      requires Valid() && id in jobs
      modifies this
      ensures Valid()
      ensures jobs == old(jobs)[id := old(jobs[id]).(jobTypes := old(jobs[id].jobTypes) + {name})]
      ensures jobTypeRows == if name in old(jobTypeRows) then old(jobTypeRows) else old(jobTypeRows) + [name]
      ensures talents == old(talents) && visits == old(visits) && skillRows == old(skillRows)
      ensures nextJobId == old(nextJobId)
      ensures experiences == old(experiences) && reviews == old(reviews)
    {
      var _ := GetOrCreateJobType(name);
      AddJobType(id, name);
    }

    /** `Talent.objects.create(...)` for a new primary key. */
    method InsertTalent(t: Talent)
      requires Valid() && t.id !in talents && t.skills == {}
      modifies this
      ensures Valid()
      ensures talents == old(talents)[t.id := t]
      ensures visits == old(visits) && skillRows == old(skillRows) && jobs == old(jobs)
      ensures nextJobId == old(nextJobId) && jobTypeRows == old(jobTypeRows)
      ensures experiences == old(experiences) && reviews == old(reviews)
    {
      talents := talents[t.id := t];
    }

    /** Deleting a Talent row; its visit, experience and review rows go
        with it (`on_delete=CASCADE`). */
    method DeleteTalent(id: int)
      requires Valid() && id in talents
      modifies this
      ensures Valid()
      ensures talents == old(talents) - {id}
      ensures visits == Filter(old(visits), (v: Visit) => v.talent != id)
      ensures experiences == Filter(old(experiences), (e: Experience) => e.talent != id)
      ensures reviews == Filter(old(reviews), (r: Review) => r.talent != id)
      ensures skillRows == old(skillRows) && jobs == old(jobs)
      ensures nextJobId == old(nextJobId) && jobTypeRows == old(jobTypeRows)
    {
      CascadeKeepsTables(talents, skillRows, visits, experiences, reviews, id);
      talents := talents - {id};
      visits := Filter(visits, (v: Visit) => v.talent != id);
      experiences := Filter(experiences, (e: Experience) => e.talent != id);
      reviews := Filter(reviews, (r: Review) => r.talent != id);
    }

    /** Saving a new Job row under the next primary key. */
    method InsertJob(company: int, title: string) returns (id: int)
      requires Valid()
      modifies this
      ensures Valid()
      ensures id == old(nextJobId) && id !in old(jobs)
      ensures jobs == old(jobs)[id := Job(id, company, title, {})] && nextJobId == old(nextJobId) + 1
      ensures talents == old(talents) && visits == old(visits) && skillRows == old(skillRows)
      ensures jobTypeRows == old(jobTypeRows)
      ensures experiences == old(experiences) && reviews == old(reviews)
    {
      id := nextJobId;
      jobs := jobs[id := Job(id, company, title, {})];
      nextJobId := nextJobId + 1;
    }

    /** Saving a new Experience row. */
    method InsertExperience(e: Experience)
      requires Valid() && e.talent in talents
      modifies this
      ensures Valid()
      ensures experiences == old(experiences) + [e]
      ensures talents == old(talents) && visits == old(visits) && skillRows == old(skillRows)
      ensures jobs == old(jobs) && nextJobId == old(nextJobId) && jobTypeRows == old(jobTypeRows)
      ensures reviews == old(reviews)
    {
      experiences := experiences + [e];
    }

    /** Saving a new Review row. */
    method InsertReview(r: Review)
      requires Valid() && r.talent in talents
      modifies this
      ensures Valid()
      ensures reviews == old(reviews) + [r]
      ensures talents == old(talents) && visits == old(visits) && skillRows == old(skillRows)
      ensures jobs == old(jobs) && nextJobId == old(nextJobId) && jobTypeRows == old(jobTypeRows)
      ensures experiences == old(experiences)
    {
      reviews := reviews + [r];
    }
  }
}
