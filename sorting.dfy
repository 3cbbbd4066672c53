/**
 * `df.sort_values(["Operator_ID", "Timestamp"])`. With more than one sort
 * column pandas uses a stable lexicographic sort, so rows with the same
 * operator and timestamp keep their file order; that order decides their
 * `Event_ID`s.
 */
module Sorting {
  import opened Text
  import opened Clock
  import opened Schemas

  /** `a` sorts no later than `b`: operator first, then timestamp. */
  predicate KeyLe(a: Event, b: Event)
  {
    Less(a.operatorId, b.operatorId) || (a.operatorId == b.operatorId && a.timestamp <= b.timestamp)
  }

  ghost predicate Sorted(s: seq<Event>)
  {
    forall i, j :: 0 <= i < j < |s| ==> KeyLe(s[i], s[j])
  }

  lemma KeyLeTransitive(a: Event, b: Event, c: Event)
    requires KeyLe(a, b) && KeyLe(b, c)
    ensures KeyLe(a, c)
  {
    if Less(a.operatorId, b.operatorId) && Less(b.operatorId, c.operatorId) {
      LessTransitive(a.operatorId, b.operatorId, c.operatorId);
    }
  }

  lemma KeyLeTotal(a: Event, b: Event)
    ensures KeyLe(a, b) || KeyLe(b, a)
  {
    LessTotal(a.operatorId, b.operatorId);
  }

  /** Place `x` before the first element that does not sort strictly before it. */
  function Insert(x: Event, s: seq<Event>): (r: seq<Event>)
    ensures multiset(r) == multiset(s) + multiset{x}
    ensures |r| == |s| + 1
  {
    if s == [] || KeyLe(x, s[0]) then [x] + s
    else
      assert s == [s[0]] + s[1..];
      [s[0]] + Insert(x, s[1..])
  }

  lemma {:induction false} InsertSorted(x: Event, s: seq<Event>)
    requires Sorted(s)
    ensures Sorted(Insert(x, s))
  {
    var r := Insert(x, s);
    if s == [] || KeyLe(x, s[0]) {
      forall j | 0 < j < |r| ensures KeyLe(r[0], r[j]) {
        if j > 1 { KeyLeTransitive(x, s[0], s[j - 1]); }
      }
    } else {
      KeyLeTotal(x, s[0]);
      InsertSorted(x, s[1..]);
      var tail := Insert(x, s[1..]);
      forall j | 0 < j < |r| ensures KeyLe(r[0], r[j]) {
        assert r[j] == tail[j - 1];
        assert r[j] in multiset(tail);
        assert r[j] == x || r[j] in multiset(s[1..]);
        if r[j] != x {
          var k :| 0 <= k < |s[1..]| && s[1..][k] == r[j];
          assert s[k + 1] == r[j];
        }
      }
    }
  }

  /** The stable sort: an insertion sort that keeps equal keys in their input order. */
  function SortEvents(s: seq<Event>): (r: seq<Event>)
    ensures |r| == |s|
    ensures multiset(r) == multiset(s)
    ensures Sorted(r)
  {
    if s == [] then []
    else
      var rest := SortEvents(s[1..]);
      InsertSorted(s[0], rest);
      assert s == [s[0]] + s[1..];
      Insert(s[0], rest)
  }

  /** The events of `s` with sort key (`op`, `t`), in order. */
  function WithKey(s: seq<Event>, op: string, t: Instant): (r: seq<Event>)
  {
    if s == [] then []
    else (if s[0].operatorId == op && s[0].timestamp == t then [s[0]] else []) + WithKey(s[1..], op, t)
  }

  lemma {:induction false} InsertStable(x: Event, s: seq<Event>, op: string, t: Instant)
    ensures WithKey(Insert(x, s), op, t) == WithKey([x] + s, op, t)
  {
    if s == [] || KeyLe(x, s[0]) {
    } else {
      var tail := Insert(x, s[1..]);
      InsertStable(x, s[1..], op, t);
      var px := if x.operatorId == op && x.timestamp == t then [x] else [];
      var p0 := if s[0].operatorId == op && s[0].timestamp == t then [s[0]] else [];
      // `x` and `s[0]` cannot both carry the key, or `x` would have gone first.
      assert px == [] || p0 == [];
      assert WithKey(Insert(x, s), op, t) == p0 + WithKey(tail, op, t) by {
        assert Insert(x, s)[1..] == tail;
      }
      assert WithKey([x] + s[1..], op, t) == px + WithKey(s[1..], op, t) by {
        assert ([x] + s[1..])[1..] == s[1..];
      }
      assert WithKey(s, op, t) == p0 + WithKey(s[1..], op, t);
      assert WithKey([x] + s, op, t) == px + WithKey(s, op, t) by {
        assert ([x] + s)[1..] == s;
      }
    }
  }

  /** Rows that tie on (Operator_ID, Timestamp) keep their input order. */
  lemma {:induction false} SortStable(s: seq<Event>, op: string, t: Instant)
    ensures WithKey(SortEvents(s), op, t) == WithKey(s, op, t)
  {
    if s != [] {
      SortStable(s[1..], op, t);
      InsertStable(s[0], SortEvents(s[1..]), op, t);
      assert ([s[0]] + SortEvents(s[1..]))[1..] == SortEvents(s[1..]);
    }
  }

  /**
   * In a sorted batch the rows of one operator form a contiguous run:
   * if `lo..hi` starts and ends at an operator change and holds only
   * operator `s[lo]`, it holds all of that operator's rows.
   */
  lemma OperatorRun(s: seq<Event>, lo: int, hi: int)
    requires Sorted(s)
    requires 0 <= lo < hi <= |s|
    requires lo == 0 || s[lo - 1].operatorId != s[lo].operatorId
    requires hi == |s| || s[hi].operatorId != s[lo].operatorId
    requires forall j :: lo <= j < hi ==> s[j].operatorId == s[lo].operatorId
    ensures forall j :: 0 <= j < |s| ==> (s[j].operatorId == s[lo].operatorId <==> lo <= j < hi)
  {
    var op := s[lo].operatorId;
    forall j | 0 <= j < |s| && s[j].operatorId == op ensures lo <= j < hi {
      if j < lo {
        assert KeyLe(s[lo - 1], s[lo]);
        if j < lo - 1 {
          assert KeyLe(s[j], s[lo - 1]);
          LessAsymmetric(op, s[lo - 1].operatorId);
        }
      } else if j >= hi {
        assert KeyLe(s[hi - 1], s[hi]);
        if j > hi {
          assert KeyLe(s[hi], s[j]);
          LessAsymmetric(op, s[hi].operatorId);
        }
      }
    }
  }
}
