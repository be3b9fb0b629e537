/** The recordings that survive matching, and `session_folders.sort(key=lambda x: x[0])`:
    Python's sort is stable, and a stable sort by time has exactly one
    possible result, which `SortByTime` computes by insertion. */
module TimeSort {
  import opened DateTimes

  /** One `(dt, session, folder)` triple of `session_folders`. */
  datatype Candidate = Candidate(dt: DateTime, session: string, name: string)

  /** No element is earlier than one before it. */
  predicate SortedByTime(s: seq<Candidate>) {
    forall i, j | 0 <= i < j < |s| :: !Earlier(s[j].dt, s[i].dt)
  }

  /** The elements stamped with time `d`, in their order in `s`. */
  function At(s: seq<Candidate>, d: DateTime): (r: seq<Candidate>)
    ensures |r| <= |s|
  {
    if s == [] then []
    else (if s[0].dt == d then [s[0]] else []) + At(s[1..], d)
  }

  /** `t` is what a stable sort by time makes of `s`: sorted, and the
      elements of each time keep their relative order. */
  ghost predicate IsStableSortOf(t: seq<Candidate>, s: seq<Candidate>) {
    SortedByTime(t) && forall d :: At(t, d) == At(s, d)
  }

  /** Insert `x` after every element that is not later than it. */
  function Insert(x: Candidate, s: seq<Candidate>): seq<Candidate>
  {
    if s == [] then [x]
    else if Earlier(x.dt, s[0].dt) then [x] + s
    else [s[0]] + Insert(x, s[1..])
  }

  /** Inserting adds just `x`. */
  lemma {:induction false} InsertPermutation(x: Candidate, s: seq<Candidate>)
    ensures multiset(Insert(x, s)) == multiset(s) + multiset{x}
  {
    if s != [] && !Earlier(x.dt, s[0].dt) {
      InsertPermutation(x, s[1..]);
      assert s == [s[0]] + s[1..];
    }
  }

  /** Inserting into a sorted sequence keeps it sorted. */
  lemma {:induction false} InsertSorted(x: Candidate, s: seq<Candidate>)
    requires SortedByTime(s)
    ensures SortedByTime(Insert(x, s))
  {
    if s == [] {
    } else if Earlier(x.dt, s[0].dt) {
      SortedBeforeHead(x, s);
    } else {
      InsertSorted(x, s[1..]);
      InsertPermutation(x, s[1..]);
      HeadBeforeInserted(x, s);
    }
  }

  lemma SortedBeforeHead(x: Candidate, s: seq<Candidate>)
    requires SortedByTime(s) && s != [] && Earlier(x.dt, s[0].dt)
    ensures SortedByTime([x] + s)
  {
    forall c | c in s ensures !Earlier(c.dt, x.dt) {
      if c != s[0] {
        TailNotBeforeHead(s, c);
      }
      EarlierIsStrictTotalOrder(c.dt, x.dt, s[0].dt);
    }
    ConsSorted(x, s);
  }

  lemma HeadBeforeInserted(x: Candidate, s: seq<Candidate>)
    requires SortedByTime(s) && s != [] && !Earlier(x.dt, s[0].dt)
    requires SortedByTime(Insert(x, s[1..]))
    requires multiset(Insert(x, s[1..])) == multiset(s[1..]) + multiset{x}
    ensures SortedByTime([s[0]] + Insert(x, s[1..]))
  {
    var t := Insert(x, s[1..]);
    forall c | c in t ensures !Earlier(c.dt, s[0].dt) {
      MemberNotBeforeHead(x, s, t, c);
    }
    ConsSorted(s[0], t);
  }

  lemma MemberNotBeforeHead(x: Candidate, s: seq<Candidate>, t: seq<Candidate>, c: Candidate)
    requires SortedByTime(s) && s != [] && !Earlier(x.dt, s[0].dt)
    requires multiset(t) == multiset(s[1..]) + multiset{x} && c in t
    ensures !Earlier(c.dt, s[0].dt)
  {
    assert c in multiset(t);
    if c != x {
      assert c in multiset(s[1..]);
      TailNotBeforeHead(s, c);
    }
  }

  /** A head no later than anything in a sorted tail keeps the list sorted. */
  lemma ConsSorted(h: Candidate, t: seq<Candidate>)
    requires SortedByTime(t) && forall c | c in t :: !Earlier(c.dt, h.dt)
    ensures SortedByTime([h] + t)
  {
    var r := [h] + t;
    forall i, j | 0 <= i < j < |r| ensures !Earlier(r[j].dt, r[i].dt) {
      assert r[j] == t[j - 1];
      if i > 0 {
        assert r[i] == t[i - 1];
      }
    }
  }

  lemma TailNotBeforeHead(s: seq<Candidate>, c: Candidate)
    requires SortedByTime(s) && s != [] && c in s[1..]
    ensures !Earlier(c.dt, s[0].dt)
  {
    var k :| 0 <= k < |s[1..]| && s[1..][k] == c;
    assert s[k + 1] == c;
  }

  /** The stable sort, inserting left to right. */
  function SortByTime(s: seq<Candidate>): (r: seq<Candidate>)
    ensures SortedByTime(r)
    ensures multiset(r) == multiset(s)
  {
    if s == [] then []
    else
      assert s == s[..|s| - 1] + [s[|s| - 1]];
      InsertSorted(s[|s| - 1], SortByTime(s[..|s| - 1]));
      InsertPermutation(s[|s| - 1], SortByTime(s[..|s| - 1]));
      Insert(s[|s| - 1], SortByTime(s[..|s| - 1]))
  }

  lemma {:induction false} AtAppend(a: seq<Candidate>, b: seq<Candidate>, d: DateTime)
    ensures At(a + b, d) == At(a, d) + At(b, d)
  {
    if a == [] {
      assert a + b == b;
    } else {
      assert (a + b)[0] == a[0];
      assert (a + b)[1..] == a[1..] + b;
      AtAppend(a[1..], b, d);
    }
  }

  lemma {:induction false} AtOfLater(s: seq<Candidate>, d: DateTime)
    requires forall i | 0 <= i < |s| :: Earlier(d, s[i].dt)
    ensures At(s, d) == []
  {
    if s != [] {
      EarlierIsStrictTotalOrder(d, d, d);
      AtOfLater(s[1..], d);
    }
  }

  /** Inserting `x` puts it after every element with the same time. */
  lemma {:induction false} AtInsert(x: Candidate, s: seq<Candidate>, d: DateTime)
    requires SortedByTime(s)
    ensures At(Insert(x, s), d) == At(s, d) + (if x.dt == d then [x] else [])
  {
    if s == [] {
    } else if Earlier(x.dt, s[0].dt) {
      assert Insert(x, s)[1..] == s;
      if x.dt == d {
        forall i | 0 <= i < |s| ensures Earlier(d, s[i].dt) {
          EarlierIsStrictTotalOrder(d, s[0].dt, s[i].dt);
          EarlierIsStrictTotalOrder(s[0].dt, s[i].dt, s[i].dt);
        }
        AtOfLater(s, d);
      }
    } else {
      AtInsert(x, s[1..], d);
      assert Insert(x, s)[1..] == Insert(x, s[1..]);
    }
  }

  /** `SortByTime` is a stable sort. */
  lemma {:induction false} SortByTimeIsStable(s: seq<Candidate>)
    ensures IsStableSortOf(SortByTime(s), s)
  {
    if s != [] {
      var p, x := s[..|s| - 1], s[|s| - 1];
      SortByTimeIsStable(p);
      forall d ensures At(SortByTime(s), d) == At(s, d) {
        AtInsert(x, SortByTime(p), d);
        assert s == p + [x];
        AtAppend(p, [x], d);
      }
    }
  }

  lemma {:induction false} AtHead(s: seq<Candidate>)
    requires s != []
    ensures At(s, s[0].dt) != [] && At(s, s[0].dt)[0] == s[0]
  {
  }

  lemma {:induction false} AtMember(s: seq<Candidate>, d: DateTime)
    requires At(s, d) != []
    ensures exists k :: 0 <= k < |s| && s[k].dt == d
  {
    if s[0].dt != d {
      AtMember(s[1..], d);
      var k :| 0 <= k < |s[1..]| && s[1..][k].dt == d;
      assert s[k + 1].dt == d;
    }
  }

  /** Two time-sorted sequences that agree on the elements of every time are equal. */
  lemma {:induction false} SortedAgreeingEqual(t1: seq<Candidate>, t2: seq<Candidate>)
    requires SortedByTime(t1) && SortedByTime(t2)
    requires forall d :: At(t1, d) == At(t2, d)
    ensures t1 == t2
    decreases |t1|
  {
    if t1 == [] {
      if t2 != [] {
        AtHead(t2);
      }
    } else if t2 == [] {
      AtHead(t1);
    } else {
      var a, b := t1[0], t2[0];
      AtHead(t1);
      AtHead(t2);
      if Earlier(a.dt, b.dt) {
        AtMember(t2, a.dt);
        assert false;
      }
      if Earlier(b.dt, a.dt) {
        AtMember(t1, b.dt);
        assert false;
      }
      EarlierIsStrictTotalOrder(a.dt, b.dt, a.dt);
      assert a.dt == b.dt;
      assert a == b by {
        assert At(t1, a.dt) == At(t2, a.dt);
      }
      forall d ensures At(t1[1..], d) == At(t2[1..], d) {
        assert At(t1, d) == At(t2, d);
        if a.dt == d {
          assert At(t1, d) == [a] + At(t1[1..], d);
          assert At(t2, d) == [b] + At(t2[1..], d);
          assert At(t1, d)[1..] == At(t1[1..], d);
          assert At(t2, d)[1..] == At(t2[1..], d);
        } else {
          assert At(t1, d) == At(t1[1..], d);
          assert At(t2, d) == At(t2[1..], d);
        }
      }
      SortedAgreeingEqual(t1[1..], t2[1..]);
      assert t1 == [a] + t1[1..] && t2 == [b] + t2[1..];
    }
  }

  /** Any stable sort of `s` gives `SortByTime(s)`; in particular the
      library's sort does. */
  lemma StableSortIsUnique(t: seq<Candidate>, s: seq<Candidate>)
    requires IsStableSortOf(t, s)
    ensures t == SortByTime(s)
  {
    SortByTimeIsStable(s);
    SortedAgreeingEqual(t, SortByTime(s));
  }
}
