/** The records of the talents app (a Talent profile, its unique-visit
    rows, reviews and experiences) and what `Talent.increment_unique_visits`
    does to a talent's visit counter and the visit table. */
module TalentModels {
  import opened Common
  import opened Strings

  /** A Talent row. Only the fields that the modelled operations read or
      write are represented; `skills` is the talent's many-to-many set of
      Skill names. */
  datatype Talent = Talent(
    id: int,
    avatar: string,
    username: string,
    globalName: Option<string>,
    language: string,
    profileVisits: nat,
    discordProfile: Option<string>,
    skills: set<string>)

  /** A UniqueProfileVisit row: one talent seen from one session. */
  datatype Visit = Visit(talent: int, sessionKey: string)

  /** A Review row; `reviewer` is the company that wrote it. */
  datatype Review = Review(talent: int, reviewer: int, rating: nat)

  /** An Experience row, owned by a talent. */
  datatype Experience = Experience(talent: int, companyName: string, role: string)

  /** The session keys recorded for talent `t` in the visit table. */
  function KeysOf(visits: seq<Visit>, t: int): set<string>
  {
    set v | v in visits && v.talent == t :: v.sessionKey
  }

  lemma KeysOfMember(visits: seq<Visit>, t: int, key: string)
    ensures key in KeysOf(visits, t) <==> Visit(t, key) in visits
  {
    if Visit(t, key) in visits {
      assert Visit(t, key).sessionKey == key;
    }
  }

  lemma KeysOfAppend(visits: seq<Visit>, v: Visit, u: int)
    ensures KeysOf(visits + [v], u) == if v.talent == u then KeysOf(visits, u) + {v.sessionKey} else KeysOf(visits, u)
  {
    var before, after := KeysOf(visits, u), KeysOf(visits + [v], u);
    forall k | k in after ensures k in before || (v.talent == u && k == v.sessionKey) {
      var w :| w in visits + [v] && w.talent == u && w.sessionKey == k;
      if w != v {
        assert w in visits;
      }
    }
    forall k | k in before ensures k in after {
      var w :| w in visits && w.talent == u && w.sessionKey == k;
      assert w in visits + [v];
    }
    if v.talent == u {
      assert v in visits + [v];
    }
  }

  /** The effect of `increment_unique_visits(key)` on talent `t`'s visit
      counter and on the visit table: the key joins the talent's recorded
      keys, the counter rises by one exactly when the key is new, the
      table keeps one row per (talent, session key) pair, and no other
      talent's keys change. */
  function UniqueVisit(counter: nat, visits: seq<Visit>, t: int, key: string): (r: (nat, seq<Visit>))
    ensures KeysOf(r.1, t) == KeysOf(visits, t) + {key}
    ensures r.0 == if key in KeysOf(visits, t) then counter else counter + 1
    ensures r.0 - |KeysOf(r.1, t)| == counter - |KeysOf(visits, t)|
    ensures forall u :: u != t ==> KeysOf(r.1, u) == KeysOf(visits, u)
    ensures NoDup(visits) ==> NoDup(r.1)
    ensures forall v :: v in r.1 <==> v in visits || v == Visit(t, key)
  {
    KeysOfMember(visits, t, key);
    if Visit(t, key) in visits then
      (counter, visits)
    else
      var visits' := visits + [Visit(t, key)];
      KeysOfAppend(visits, Visit(t, key), t);
      assert forall u :: u != t ==> KeysOf(visits', u) == KeysOf(visits, u) by {
        forall u | u != t ensures KeysOf(visits', u) == KeysOf(visits, u) {
          KeysOfAppend(visits, Visit(t, key), u);
        }
      }
      (counter + 1, visits')
  }

  /** Recording the same session key twice has the effect of recording it once. */
  lemma UniqueVisitIdempotent(counter: nat, visits: seq<Visit>, t: int, key: string)
    ensures var once := UniqueVisit(counter, visits, t, key);
            UniqueVisit(once.0, once.1, t, key) == once
  {
    var once := UniqueVisit(counter, visits, t, key);
    assert Visit(t, key) in once.1;
  }

  /** A sequence of visits from the given session keys, each going through
      `increment_unique_visits`. */
  function ReplayVisits(counter: nat, visits: seq<Visit>, t: int, keys: seq<string>): (nat, seq<Visit>)
    decreases |keys|
  {
    if |keys| == 0 then (counter, visits)
    else
      var step := UniqueVisit(counter, visits, t, keys[0]);
      ReplayVisits(step.0, step.1, t, keys[1..])
  }

  /** Whatever keys arrive, the counter minus the number of distinct
      recorded keys stays what it was, and the recorded keys grow by
      exactly the keys seen. */
  lemma {:induction false} ReplayKeepsDifference(counter: nat, visits: seq<Visit>, t: int, keys: seq<string>)
    ensures var r := ReplayVisits(counter, visits, t, keys);
            && KeysOf(r.1, t) == KeysOf(visits, t) + Distinct(keys)
            && r.0 - |KeysOf(r.1, t)| == counter - |KeysOf(visits, t)|
    decreases |keys|
  {
    if |keys| == 0 {
      assert Distinct(keys) == {};
    } else {
      var step := UniqueVisit(counter, visits, t, keys[0]);
      ReplayKeepsDifference(step.0, step.1, t, keys[1..]);
      DistinctCons(keys);
    }
  }

  /** A talent whose counter starts at 0 with no recorded visits, and that
      is only ever updated through `increment_unique_visits`, has a counter
      equal to the number of distinct session keys it has seen. */
  lemma CounterCountsDistinctKeys(visits: seq<Visit>, t: int, keys: seq<string>)
    requires KeysOf(visits, t) == {}
    ensures var r := ReplayVisits(0, visits, t, keys);
            r.0 == |KeysOf(r.1, t)| == |Distinct(keys)|
  {
    ReplayKeepsDifference(0, visits, t, keys);
    var r := ReplayVisits(0, visits, t, keys);
    assert KeysOf(r.1, t) == Distinct(keys);
  }
}
