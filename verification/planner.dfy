/**
 * The creation order of a batch: `sorted(tickets, key=lambda t: (type_order.get(t['type'], 1), t['index']))`.
 *
 * Python's `sorted` is stable, so tickets with equal keys keep their batch order.
 * The model therefore orders batch POSITIONS by the strict key (tier, index, position);
 * the executor then walks the tickets at those positions.
 */
module Planner {
  import opened Tickets

  /** Position `p` is created before position `q`: smaller tier, then smaller index, then earlier in the batch. */
  predicate Before(ts: seq<Ticket>, p: nat, q: nat)
    requires p < |ts| && q < |ts|
  {
    var tp, tq := TypeTier(ts[p].issueType), TypeTier(ts[q].issueType);
    tp < tq || (tp == tq && (ts[p].index < ts[q].index || (ts[p].index == ts[q].index && p < q)))
  }

  /** Every entry of `ps` is a position of the batch. */
  predicate InRange(ts: seq<Ticket>, ps: seq<nat>) {
    forall i :: 0 <= i < |ps| ==> ps[i] < |ts|
  }

  /** `ps` lists positions in strictly increasing creation order. */
  predicate StrictlyOrdered(ts: seq<Ticket>, ps: seq<nat>)
    requires InRange(ts, ps)
  {
    forall i, j :: 0 <= i < j < |ps| ==> Before(ts, ps[i], ps[j])
  }

  /** No position occurs twice in `ps`. */
  predicate Distinct(ps: seq<nat>) {
    forall i, j :: 0 <= i < j < |ps| ==> ps[i] != ps[j]
  }

  /** Inserts position `p` into the ordered list `ps` in front of the first position it comes before. */
  function Insert(ts: seq<Ticket>, p: nat, ps: seq<nat>): (r: seq<nat>)
    requires p < |ts| && InRange(ts, ps)
    ensures InRange(ts, r)
    ensures multiset(r) == multiset(ps) + multiset{p}
  {
    if ps == [] then [p]
    else if Before(ts, p, ps[0]) then [p] + ps
    else
      assert [ps[0]] + ps[1..] == ps;
      [ps[0]] + Insert(ts, p, ps[1..])
  }

  /** Putting a position in front of an ordered list that it precedes throughout keeps the list ordered. */
  lemma ConsOrdered(ts: seq<Ticket>, x: nat, rest: seq<nat>)
    requires x < |ts| && InRange(ts, rest) && StrictlyOrdered(ts, rest)
    requires forall j :: 0 <= j < |rest| ==> Before(ts, x, rest[j])
    ensures InRange(ts, [x] + rest) && StrictlyOrdered(ts, [x] + rest)
  {
    var r := [x] + rest;
    forall i, j | 0 <= i < j < |r| ensures Before(ts, r[i], r[j]) {
      if i == 0 {
        assert r[j] == rest[j - 1];
      } else {
        assert r[i] == rest[i - 1] && r[j] == rest[j - 1];
      }
    }
  }

  /** The first position of an ordered list precedes every position of its tail. */
  lemma HeadPrecedesTail(ts: seq<Ticket>, ps: seq<nat>, y: nat)
    requires ps != [] && InRange(ts, ps) && StrictlyOrdered(ts, ps)
    requires y in multiset(ps[1..])
    ensures y < |ts| && Before(ts, ps[0], y)
  {
    var k :| 0 <= k < |ps[1..]| && ps[1..][k] == y;
    assert ps[k + 1] == y;
  }

  /** Inserting a new position into an ordered list keeps it ordered. */
  lemma {:induction false} InsertOrdered(ts: seq<Ticket>, p: nat, ps: seq<nat>)
    requires p < |ts| && InRange(ts, ps) && StrictlyOrdered(ts, ps)
    requires p !in ps
    ensures StrictlyOrdered(ts, Insert(ts, p, ps))
  {
    if ps != [] && !Before(ts, p, ps[0]) {
      var rest := Insert(ts, p, ps[1..]);
      InsertOrdered(ts, p, ps[1..]);
      forall j | 0 <= j < |rest| ensures Before(ts, ps[0], rest[j]) {
        assert rest[j] in multiset(rest);
        if rest[j] != p {
          HeadPrecedesTail(ts, ps, rest[j]);
        }
      }
      ConsOrdered(ts, ps[0], rest);
    }
  }

  /** Insertion sort of the distinct positions `ps` into creation order. */
  function SortPositions(ts: seq<Ticket>, ps: seq<nat>): (r: seq<nat>)
    requires InRange(ts, ps) && Distinct(ps)
    ensures InRange(ts, r) && StrictlyOrdered(ts, r)
    ensures multiset(r) == multiset(ps)
  {
    if ps == [] then []
    else
      var rest := SortPositions(ts, ps[1..]);
      assert ps[0] !in ps[1..];
      assert ps[0] !in rest by {
        assert multiset(ps[1..])[ps[0]] == 0;
      }
      assert [ps[0]] + ps[1..] == ps;
      InsertOrdered(ts, ps[0], rest);
      Insert(ts, ps[0], rest)
  }

  /** The positions `0 .. n-1` in ascending order. */
  function Positions(n: nat): (r: seq<nat>)
    ensures |r| == n && forall i :: 0 <= i < n ==> r[i] == i
  {
    seq(n, i requires 0 <= i < n => i)
  }

  /**
   * The order in which `create_tickets` visits the batch: every position exactly once,
   * non-decreasing in tier, ties in ascending index, and remaining ties in batch order.
   */
  function CreationOrder(ts: seq<Ticket>): (order: seq<nat>)
    ensures |order| == |ts|
    ensures InRange(ts, order) && Distinct(order)
    ensures forall p :: 0 <= p < |ts| ==> p in order
    ensures StrictlyOrdered(ts, order)
    ensures forall i, j :: 0 <= i < j < |order| ==>
      TypeTier(ts[order[i]].issueType) <= TypeTier(ts[order[j]].issueType)
  {
    var ps := Positions(|ts|);
    var r := SortPositions(ts, ps);
    assert |r| == |ts| by {
      assert |multiset(r)| == |multiset(ps)|;
    }
    forall p | 0 <= p < |ts| ensures p in r {
      assert ps[p] == p;
      assert p in multiset(ps);
    }
    r
  }

  /** Two strictly ordered arrangements of the same positions are the same list. */
  lemma {:induction false} StrictlyOrderedUnique(ts: seq<Ticket>, a: seq<nat>, b: seq<nat>)
    requires InRange(ts, a) && InRange(ts, b)
    requires StrictlyOrdered(ts, a) && StrictlyOrdered(ts, b)
    requires multiset(a) == multiset(b)
    ensures a == b
  {
    if a != [] {
      assert |b| == |a| by {
        assert |multiset(a)| == |multiset(b)|;
      }
      assert a[0] in multiset(b);
      assert b[0] in multiset(a);
      if a[0] != b[0] {
        assert false;
      }
      assert a == [a[0]] + a[1..];
      assert b == [b[0]] + b[1..];
      assert multiset(a[1..]) == multiset(b[1..]) by {
        assert multiset(a) == multiset{a[0]} + multiset(a[1..]);
        assert multiset(b) == multiset{b[0]} + multiset(b[1..]);
        assert multiset(a[1..]) == multiset(a) - multiset{a[0]};
        assert multiset(b[1..]) == multiset(b) - multiset{b[0]};
      }
      StrictlyOrderedUnique(ts, a[1..], b[1..]);
    }
  }

  /**
   * The creation order is determined by the sort key alone: any arrangement of all positions,
   * each once, that is strictly ordered by (tier, index, position) is the creation order.
   */
  lemma CreationOrderUnique(ts: seq<Ticket>, order: seq<nat>)
    requires InRange(ts, order) && StrictlyOrdered(ts, order)
    requires multiset(order) == multiset(Positions(|ts|))
    ensures order == CreationOrder(ts)
  {
    var ps := Positions(|ts|);
    StrictlyOrderedUnique(ts, order, SortPositions(ts, ps));
  }
}
