/**
 * The keys of `job_chapters` that belong to one job, in ascending chapter
 * order, as `ORDER BY chapter_index ASC` returns them.
 */
module Indices {

  /** A key of `job_chapters`: the job id and the chapter index. */
  type Key = (string, int)

  /** All keys belong to the given job. */
  predicate OfJob(s: set<Key>, jobId: string) {
    forall k :: k in s ==> k.0 == jobId
  }

  predicate IsLeast(m: Key, s: set<Key>) {
    m in s && forall x :: x in s ==> m.1 <= x.1
  }

  /** A non-empty set of keys has one with the smallest chapter index. */
  lemma LeastExists(s: set<Key>)
    requires s != {}
    ensures exists m :: IsLeast(m, s)
    decreases s
  {
    var y :| y in s;
    var rest := s - {y};
    assert forall x :: x in s ==> x == y || x in rest;
    if rest == {} {
      assert IsLeast(y, s);
    } else {
      LeastExists(rest);
      var m :| IsLeast(m, rest);
      if y.1 < m.1 {
        assert IsLeast(y, s);
      } else {
        assert IsLeast(m, s);
      }
    }
  }

  /** The keys of one job by strictly ascending chapter index. */
  function Ascending(s: set<Key>, jobId: string): (r: seq<Key>)
    requires OfJob(s, jobId)
    ensures |r| == |s|
    ensures forall k :: k in r <==> k in s
    ensures StrictlyAscending(r)
    decreases s
  {
    if s == {} then []
    else
      LeastExists(s);
      var m :| IsLeast(m, s);
      var smaller := s - {m};
      assert OfJob(smaller, jobId);
      var rest := Ascending(smaller, jobId);
      assert forall k :: k in s <==> k == m || k in smaller;
      assert forall i :: 0 <= i < |rest| ==> m.1 < rest[i].1 by {
        forall i | 0 <= i < |rest|
          ensures m.1 < rest[i].1
        {
          assert rest[i] in smaller;
          assert rest[i].0 == m.0;
        }
      }
      PrependKeepsAscending(m, rest);
      [m] + rest
  }

  /** Chapter indices strictly increase along the sequence. */
  predicate StrictlyAscending(r: seq<Key>) {
    forall i, j :: 0 <= i < j < |r| ==> r[i].1 < r[j].1
  }

  lemma PrependKeepsAscending(m: Key, rest: seq<Key>)
    requires StrictlyAscending(rest)
    requires forall i :: 0 <= i < |rest| ==> m.1 < rest[i].1
    ensures StrictlyAscending([m] + rest)
  {
    var r := [m] + rest;
    forall i, j | 0 <= i < j < |r|
      ensures r[i].1 < r[j].1
    {
      assert r[j] == rest[j - 1];
      if i > 0 {
        assert r[i] == rest[i - 1];
      }
    }
  }
}
