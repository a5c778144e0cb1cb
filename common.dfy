/** Values shared by every part of the model: optional and fallible results,
    the kinds of authenticated user, and HTTP request methods. */
module Common {

  datatype Option<+T> = None | Some(value: T)

  datatype Result<+T, +E> = Ok(value: T) | Err(error: E)

  /** `request.user` as the views see it: a Talent row, a Company account,
      or nobody (no authenticator ran, or none matched). In a view with
      token authentication, `TalentUser` stands for any signed-in account
      that is not a company. */
  datatype User = TalentUser(talentId: int) | CompanyUser(companyId: int) | Anonymous

  datatype HttpMethod = GET | HEAD | OPTIONS | POST | PUT | PATCH | DELETE

  /** The framework's SAFE_METHODS: GET, HEAD and OPTIONS. */
  predicate IsSafe(m: HttpMethod)
  {
    m == GET || m == HEAD || m == OPTIONS
  }

  /** No element occurs twice (a table with a uniqueness constraint). */
  ghost predicate NoDup<T>(s: seq<T>)
  {
    forall i, j :: 0 <= i < j < |s| ==> s[i] != s[j]
  }

  /** A dictionary lookup with `dict.get`: None when the key is absent. */
  function Lookup<K, V>(m: map<K, V>, key: K): (r: Option<V>)
    ensures r.Some? <==> key in m
    ensures r.Some? ==> r.value == m[key]
  {
    if key in m then Some(m[key]) else None
  }

  /** `a` is `b` with some elements deleted: the elements of `a` occur in
      `b` in the same order. */
  ghost predicate Subsequence<T>(a: seq<T>, b: seq<T>)
    decreases |b|
  {
    if |b| == 0 then |a| == 0
    else Subsequence(a, b[1..]) || (|a| > 0 && a[0] == b[0] && Subsequence(a[1..], b[1..]))
  }

  /** Every sequence is a subsequence of itself (nothing deleted). */
  lemma {:induction false} SubsequenceRefl<T>(s: seq<T>)
    ensures Subsequence(s, s)
    decreases |s|
  {
    if |s| > 0 {
      SubsequenceRefl(s[1..]);
    }
  }

  /** The elements of `s` that satisfy `keep`, in their original order
      (a DELETE ... WHERE on a table kept as a sequence of rows). */
  function Filter<T(!new)>(s: seq<T>, keep: T -> bool): (r: seq<T>)
    ensures |r| <= |s|
    ensures Subsequence(r, s)
    ensures forall x :: x in r <==> x in s && keep(x)
    ensures NoDup(s) ==> NoDup(r)
    decreases |s|
  {
    if |s| == 0 then []
    else if keep(s[0]) then [s[0]] + Filter(s[1..], keep)
    else Filter(s[1..], keep)
  }

  /** `Filter` keeps every copy of a kept element: each element occurs in
      the result exactly as often as in `s` when `keep` holds of it, and
      not at all otherwise. */
  lemma {:induction false} FilterCount<T(!new)>(s: seq<T>, keep: T -> bool)
    ensures forall x :: multiset(Filter(s, keep))[x] == if keep(x) then multiset(s)[x] else 0
    decreases |s|
  {
    if |s| > 0 {
      FilterCount(s[1..], keep);
      assert s == [s[0]] + s[1..];
    }
  }

  /** Extending a prefix by one element. */
  lemma PrefixSnoc<T>(s: seq<T>, i: int)
    requires 0 <= i < |s|
    ensures s[..i + 1] == s[..i] + [s[i]]
  {
  }
}
