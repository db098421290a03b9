/**
 * The delete branch of the review loop: remove ticket number `n` (1-based) from the batch and
 * renumber the remaining tickets `0 .. n-2`. Parent indices are left as they are.
 */
module BatchEdit {
  import opened Wrappers
  import opened Tickets
  import opened Ancestry

  /** The batch after popping position `pos`, before renumbering. */
  function Popped(tickets: seq<Ticket>, pos: nat): (r: seq<Ticket>)
    requires pos < |tickets|
    ensures |r| == |tickets| - 1
    ensures forall i :: 0 <= i < |r| ==> r[i] == if i < pos then tickets[i] else tickets[i + 1]
  {
    tickets[..pos] + tickets[pos + 1..]
  }

  /**
   * Deleting ticket number `ticketNum`. A number outside `1 .. n` leaves the batch alone.
   * Otherwise the ticket at position `ticketNum - 1` is removed, the others keep their
   * relative order and every field but `index`, and `index` becomes the new position.
   */
  method DeleteTicket(tickets: seq<Ticket>, ticketNum: int) returns (r: seq<Ticket>, deleted: bool)
    ensures deleted <==> 1 <= ticketNum <= |tickets|
    ensures !deleted ==> r == tickets
    ensures deleted ==> |r| == |tickets| - 1
    ensures deleted ==> forall i :: 0 <= i < |r| ==> r[i] == Popped(tickets, ticketNum - 1)[i].(index := i)
  {
    var idx := ticketNum - 1;
    if !(0 <= idx < |tickets|) {
      return tickets, false;
    }
    r := Popped(tickets, idx);
    ghost var popped := r;
    for i := 0 to |r|
      invariant |r| == |popped|
      invariant forall j :: 0 <= j < i ==> r[j] == popped[j].(index := j)
      invariant forall j :: i <= j < |r| ==> r[j] == popped[j]
    {
      r := r[i := r[i].(index := i)];
    }
    deleted := true;
  }

  /**
   * Parent indices are not renumbered. Deleting the parent of the next ticket leaves that ticket
   * at the parent's old position with its old parent index, so it now names itself as parent.
   */
  lemma DeletedParentBecomesSelfLink(tickets: seq<Ticket>, r: seq<Ticket>, k: nat)
    requires k + 1 < |tickets| && tickets[k + 1].parentIndex == Some(k)
    requires |r| == |tickets| - 1
    requires forall i :: 0 <= i < |r| ==> r[i] == Popped(tickets, k)[i].(index := i)
    ensures r[k].index == k && r[k].parentIndex == Some(k)
    ensures ParentChain(IndexToTicket(r), k) == [k]
  {
    var m := IndexToTicket(r);
    assert forall i :: 0 <= i < |r| ==> r[i].index == i;
    IndexToTicketDense(r);
    assert Next(m, k) == Some(k);
    assert ChainFrom(m, Some(k), {}) == [k] + ChainFrom(m, Some(k), {k});
  }
}
