/**
 * Parent-link resolution inside `create_tickets`: the index-to-ticket table, the
 * cycle-guarded parent walk `find_parent_chain`, and the two ancestor searches
 * `find_first_non_subtask_ancestor` and `find_epic_ancestor`.
 */
module Ancestry {
  import opened Wrappers
  import opened Tickets

  /**
   * `index_to_ticket = {ticket['index']: ticket for ticket in tickets}`: every index of the
   * batch is a key, and on duplicate indices the ticket that comes last wins.
   */
  function IndexToTicket(ts: seq<Ticket>): map<int, Ticket> {
    if ts == [] then map[] else IndexToTicket(ts[..|ts| - 1])[ts[|ts| - 1].index := ts[|ts| - 1]]
  }

  /** The keys of the table are exactly the indices of the batch. */
  lemma {:induction false} IndexToTicketKeys(ts: seq<Ticket>)
    ensures forall p :: 0 <= p < |ts| ==> ts[p].index in IndexToTicket(ts)
    ensures forall i :: i in IndexToTicket(ts) ==> exists p :: 0 <= p < |ts| && ts[p].index == i
  {
    if ts != [] {
      var n := |ts| - 1;
      var front := ts[..n];
      IndexToTicketKeys(front);
      var m := IndexToTicket(ts);
      assert m == IndexToTicket(front)[ts[n].index := ts[n]];
      forall p | 0 <= p < n ensures front[p] == ts[p] { }
      forall i | i in m ensures exists p :: 0 <= p < |ts| && ts[p].index == i {
        if i != ts[n].index {
          var p :| 0 <= p < |front| && front[p].index == i;
          assert ts[p].index == i;
        }
      }
    }
  }

  /** On duplicate indices the table keeps the ticket that comes last in the batch. */
  lemma {:induction false} IndexToTicketLastWins(ts: seq<Ticket>, p: int)
    requires 0 <= p < |ts|
    requires forall q :: p < q < |ts| ==> ts[q].index != ts[p].index
    ensures ts[p].index in IndexToTicket(ts) && IndexToTicket(ts)[ts[p].index] == ts[p]
  {
    var n := |ts| - 1;
    if p < n {
      var front := ts[..n];
      assert front[p] == ts[p];
      assert forall q :: p < q < |front| ==> front[q] == ts[q];
      IndexToTicketLastWins(front, p);
    }
  }

  /** In a batch whose indices are its positions, the table maps each position to its ticket. */
  lemma {:induction false} IndexToTicketDense(ts: seq<Ticket>)
    requires forall p :: 0 <= p < |ts| ==> ts[p].index == p
    ensures forall p :: 0 <= p < |ts| ==> p in IndexToTicket(ts) && IndexToTicket(ts)[p] == ts[p]
    ensures forall i :: i in IndexToTicket(ts) ==> 0 <= i < |ts|
  {
    var m := IndexToTicket(ts);
    IndexToTicketKeys(ts);
    forall p | 0 <= p < |ts| ensures p in m && m[p] == ts[p] {
      IndexToTicketLastWins(ts, p);
    }
    forall i | i in m ensures 0 <= i < |ts| {
      var p :| 0 <= p < |ts| && ts[p].index == i;
    }
  }

  /** The parent link the walk follows: `index_to_ticket.get(i, {}).get("parent_index")`. */
  function Next(m: map<int, Ticket>, i: int): Option<int> {
    if i in m then m[i].parentIndex else None
  }

  /** Visiting a new index shrinks the set of unvisited table keys, or leaves it alone for a dangling index. */
  lemma VisitShrinks(keys: set<int>, visited: set<int>, c: int)
    requires c !in visited
    ensures c in keys ==> |keys - (visited + {c})| + 1 == |keys - visited|
    ensures c !in keys ==> keys - (visited + {c}) == keys - visited
  {
    if c in keys {
      assert keys - visited == (keys - (visited + {c})) + {c};
    }
  }

  /** The rest of the walk from `cur`, with `visited` already seen. */
  function ChainFrom(m: map<int, Ticket>, cur: Option<int>, visited: set<int>): seq<int>
    decreases |m.Keys - visited| + (if cur.Some? then 1 else 0)
  {
    match cur
    case None => []
    case Some(c) =>
      if c in visited then []
      else
        VisitShrinks(m.Keys, visited, c);
        [c] + ChainFrom(m, Next(m, c), visited + {c})
  }

  /** `find_parent_chain(start)`. */
  function ParentChain(m: map<int, Ticket>, start: int): seq<int> {
    ChainFrom(m, Some(start), {})
  }

  /**
   * `ch` is a parent walk from `start` that avoids `visited`: it starts at `start`, each next
   * element is the previous one's parent, nothing repeats, and it stops because the last
   * element has no parent in the table (None or dangling) or its parent was already seen.
   */
  predicate IsWalk(m: map<int, Ticket>, start: int, ch: seq<int>, visited: set<int>) {
    && |ch| >= 1 && ch[0] == start
    && (forall i :: 0 <= i < |ch| - 1 ==> Next(m, ch[i]) == Some(ch[i + 1]))
    && (forall i, j :: 0 <= i < j < |ch| ==> ch[i] != ch[j])
    && (forall i :: 0 <= i < |ch| ==> ch[i] !in visited)
    && (var last := Next(m, ch[|ch| - 1]); last.None? || last.value in visited || last.value in ch)
  }

  /** A lone index whose parent is missing, dangling or already seen is a complete walk. */
  lemma SingleWalk(m: map<int, Ticket>, start: int, visited: set<int>)
    requires start !in visited
    requires Next(m, start).None? || Next(m, start).value in visited + {start}
    ensures IsWalk(m, start, [start], visited)
  {
  }

  /** Putting `start` in front of a walk from its parent, with `start` seen, gives a walk from `start`. */
  lemma ConsWalk(m: map<int, Ticket>, start: int, rest: seq<int>, visited: set<int>)
    requires start !in visited && |rest| >= 1
    requires Next(m, start) == Some(rest[0])
    requires IsWalk(m, rest[0], rest, visited + {start})
    ensures IsWalk(m, start, [start] + rest, visited)
  {
    var ch := [start] + rest;
    forall i | 0 <= i < |ch| - 1 ensures Next(m, ch[i]) == Some(ch[i + 1]) {
      if i > 0 {
        assert ch[i] == rest[i - 1] && ch[i + 1] == rest[i];
      }
    }
    forall i, j | 0 <= i < j < |ch| ensures ch[i] != ch[j] {
      assert ch[j] == rest[j - 1];
      if i > 0 {
        assert ch[i] == rest[i - 1];
      }
    }
    forall i | 0 <= i < |ch| ensures ch[i] !in visited {
      if i > 0 {
        assert ch[i] == rest[i - 1];
      }
    }
    var last := Next(m, rest[|rest| - 1]);
    assert ch[|ch| - 1] == rest[|rest| - 1];
    if last.Some? && last.value in rest {
      var k :| 0 <= k < |rest| && rest[k] == last.value;
      assert ch[k + 1] == last.value;
    }
  }

  /** The walk computed from an unvisited start has the shape of a parent walk. */
  lemma {:induction false} ChainFromIsWalk(m: map<int, Ticket>, start: int, visited: set<int>)
    requires start !in visited
    ensures IsWalk(m, start, ChainFrom(m, Some(start), visited), visited)
    decreases |m.Keys - visited|
  {
    var v2 := visited + {start};
    var nx := Next(m, start);
    VisitShrinks(m.Keys, visited, start);
    if nx.Some? && nx.value !in v2 {
      assert start in m;
      ChainFromIsWalk(m, nx.value, v2);
      var rest := ChainFrom(m, nx, v2);
      assert ChainFrom(m, Some(start), visited) == [start] + rest;
      ConsWalk(m, start, rest, visited);
    } else {
      assert ChainFrom(m, Some(start), visited) == [start];
      SingleWalk(m, start, visited);
    }
  }

  /** Dropping the first element of a walk longer than one leaves a walk from its parent, with it seen. */
  lemma TailWalk(m: map<int, Ticket>, ch: seq<int>, visited: set<int>)
    requires |ch| >= 2 && IsWalk(m, ch[0], ch, visited)
    ensures IsWalk(m, ch[1], ch[1..], visited + {ch[0]})
  {
    var rest := ch[1..];
    var v2 := visited + {ch[0]};
    forall i | 0 <= i < |rest| - 1 ensures Next(m, rest[i]) == Some(rest[i + 1]) {
      assert rest[i] == ch[i + 1] && rest[i + 1] == ch[i + 2];
    }
    forall i | 0 <= i < |rest| ensures rest[i] !in v2 {
      assert rest[i] == ch[i + 1];
    }
    forall k | 1 <= k < |ch| ensures ch[k] in rest {
      assert rest[k - 1] == ch[k];
    }
    assert rest[|rest| - 1] == ch[|ch| - 1];
  }

  /** A parent walk is exactly what the computation produces: the walk is determined by the rules. */
  lemma {:induction false} WalkIsChainFrom(m: map<int, Ticket>, ch: seq<int>, visited: set<int>)
    requires |ch| >= 1 && IsWalk(m, ch[0], ch, visited)
    ensures ChainFrom(m, Some(ch[0]), visited) == ch
    decreases |ch|
  {
    if |ch| == 1 {
      assert ChainFrom(m, Some(ch[0]), visited) == [ch[0]];
    } else {
      TailWalk(m, ch, visited);
      WalkIsChainFrom(m, ch[1..], visited + {ch[0]});
      assert ch == [ch[0]] + ch[1..];
    }
  }

  /**
   * `find_parent_chain(start)` is the unique parent walk from `start`: starts at `start`,
   * follows `parent_index`, never repeats, and ends at a missing or dangling parent or a revisit.
   */
  lemma ParentChainIsTheWalk(m: map<int, Ticket>, start: int, ch: seq<int>)
    ensures IsWalk(m, start, ParentChain(m, start), {})
    ensures IsWalk(m, start, ch, {}) ==> ch == ParentChain(m, start)
  {
    ChainFromIsWalk(m, start, {});
    if IsWalk(m, start, ch, {}) {
      WalkIsChainFrom(m, ch, {});
    }
  }

  /** One step of the walk: `c` joins the chain, and fewer table keys remain unvisited. */
  lemma WalkStep(m: map<int, Ticket>, chain: seq<int>, c: int, visited: set<int>)
    requires c !in visited
    ensures chain + ChainFrom(m, Some(c), visited) == (chain + [c]) + ChainFrom(m, Next(m, c), visited + {c})
    ensures |m.Keys - (visited + {c})| + (if Next(m, c).Some? then 1 else 0) < |m.Keys - visited| + 1
  {
    VisitShrinks(m.Keys, visited, c);
    var rest := ChainFrom(m, Next(m, c), visited + {c});
    assert ChainFrom(m, Some(c), visited) == [c] + rest;
    AppendAssoc(chain, [c], rest);
  }

  /** Concatenation is associative. */
  lemma AppendAssoc(a: seq<int>, b: seq<int>, c: seq<int>)
    ensures (a + b) + c == a + (b + c)
  {
  }

  /** `find_parent_chain` as the source writes it: a loop growing `visited` and `chain`. */
  method FindParentChain(m: map<int, Ticket>, start: int) returns (chain: seq<int>)
    ensures chain == ParentChain(m, start)
  {
    chain := [];
    var current: Option<int> := Some(start);
    var visited: set<int> := {};
    while current.Some? && current.value !in visited
      invariant chain + ChainFrom(m, current, visited) == ParentChain(m, start)
      decreases |m.Keys - visited| + (if current.Some? then 1 else 0)
    {
      var c := current.value;
      WalkStep(m, chain, c, visited);
      visited := visited + {c};
      chain := chain + [c];
      current := Next(m, c);
    }
  }

  /** What an ancestor search looks for. */
  datatype Wanted = NonSubtask | Epic

  /** The table has a live ticket at `i` of the wanted kind. */
  predicate Hit(m: map<int, Ticket>, want: Wanted, i: int) {
    i in m &&
    match want
    case NonSubtask => !IsSubtaskType(m[i].issueType)
    case Epic => IsEpicType(m[i].issueType)
  }

  /** No index of `chain` before position `k` qualifies. */
  predicate NoHitBefore(m: map<int, Ticket>, want: Wanted, chain: seq<int>, k: int)
    requires k <= |chain|
  {
    forall j :: 0 <= j < k ==> !Hit(m, want, chain[j])
  }

  /** The first index on `chain` holding a live ticket of the wanted kind, passing over indices without one. */
  function FirstAncestor(m: map<int, Ticket>, chain: seq<int>, want: Wanted): Option<int> {
    if chain == [] then None
    else if Hit(m, want, chain[0]) then Some(chain[0])
    else FirstAncestor(m, chain[1..], want)
  }

  /**
   * The search result is a qualifying index of the chain with no qualifying index before it,
   * and it is `None` exactly when no index of the chain qualifies.
   */
  lemma {:induction false} FirstAncestorSpec(m: map<int, Ticket>, chain: seq<int>, want: Wanted)
    ensures var r := FirstAncestor(m, chain, want);
      (r.Some? ==> Hit(m, want, r.value) && exists k :: 0 <= k < |chain| && chain[k] == r.value && NoHitBefore(m, want, chain, k))
      && (r.None? <==> forall k :: 0 <= k < |chain| ==> !Hit(m, want, chain[k]))
  {
    if chain != [] && !Hit(m, want, chain[0]) {
      var tail := chain[1..];
      FirstAncestorSpec(m, tail, want);
      var r := FirstAncestor(m, tail, want);
      forall k | 1 <= k < |chain| ensures chain[k] == tail[k - 1] { }
      if r.Some? {
        var k :| 0 <= k < |tail| && tail[k] == r.value && NoHitBefore(m, want, tail, k);
        assert chain[k + 1] == r.value;
        forall j | 0 <= j < k + 1 ensures !Hit(m, want, chain[j]) {
          if j > 0 {
            assert chain[j] == tail[j - 1];
          }
        }
        assert NoHitBefore(m, want, chain, k + 1);
      }
    }
  }

  /** `find_first_non_subtask_ancestor(start)`: loops over the parent chain. */
  method FindFirstNonSubtaskAncestor(m: map<int, Ticket>, start: int) returns (r: Option<int>)
    ensures r == FirstAncestor(m, ParentChain(m, start), NonSubtask)
  {
    var chain := FindParentChain(m, start);
    for i := 0 to |chain|
      invariant FirstAncestor(m, chain[i..], NonSubtask) == FirstAncestor(m, chain, NonSubtask)
    {
      assert chain[i..][1..] == chain[i + 1..];
      var idx := chain[i];
      if idx !in m {
        continue;
      }
      if !IsSubtaskType(m[idx].issueType) {
        return Some(idx);
      }
    }
    return None;
  }

  /** `find_epic_ancestor(start)`: loops over the parent chain. */
  method FindEpicAncestor(m: map<int, Ticket>, start: int) returns (r: Option<int>)
    ensures r == FirstAncestor(m, ParentChain(m, start), Epic)
  {
    var chain := FindParentChain(m, start);
    for i := 0 to |chain|
      invariant FirstAncestor(m, chain[i..], Epic) == FirstAncestor(m, chain, Epic)
    {
      assert chain[i..][1..] == chain[i + 1..];
      var idx := chain[i];
      if idx !in m {
        continue;
      }
      if IsEpicType(m[idx].issueType) {
        return Some(idx);
      }
    }
    return None;
  }
}
