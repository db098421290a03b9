/**
 * Turning the analyser's answer into a batch: `_process_tickets` gives every proposed ticket
 * its position as `index`, fills in missing fields, and clears `key`. The post-processing of
 * the e-mail extraction bounds the summary and falls back to the e-mail body.
 */
module Ingest {
  import opened Wrappers
  import opened Tickets
  import opened Ancestry

  /**
   * A proposed ticket as parsed from the analyser's JSON. `None` is a missing key; for the parent
   * index it is also an explicit `null`, which `get` returns alike.
   */
  datatype RawTicket = RawTicket(
    issueType: Option<string>,
    summary: Option<string>,
    description: Option<string>,
    acceptanceCriteria: Option<seq<string>>,
    parentIndex: Option<int>)

  /** The ticket `_process_tickets` makes of `raw` at position `idx`. */
  function Normalize(raw: RawTicket, idx: nat): Ticket {
    Ticket(idx, raw.issueType.GetOr("Task"), raw.summary.GetOr("Untitled"), raw.description.GetOr(""),
           raw.acceptanceCriteria.GetOr([]), raw.parentIndex, None)
  }

  /**
   * `_process_tickets`: one ticket per raw ticket, in order. Ticket `i` has index `i`; a missing
   * type, summary, description or criteria list becomes `Task`, `Untitled`, `""` or `[]`, and a
   * present one is copied; the parent index is copied as it is, dangling or not; no key yet. The
   * batch is dense, so the engine's index table maps each `i` to ticket `i` and has no other key.
   */
  method ProcessTickets(raws: seq<RawTicket>) returns (processed: seq<Ticket>)
    ensures |processed| == |raws|
    ensures forall i :: 0 <= i < |raws| ==>
      && processed[i].index == i
      && processed[i].issueType == (if raws[i].issueType.Some? then raws[i].issueType.value else "Task")
      && processed[i].summary == (if raws[i].summary.Some? then raws[i].summary.value else "Untitled")
      && processed[i].description == (if raws[i].description.Some? then raws[i].description.value else "")
      && processed[i].acceptanceCriteria == (if raws[i].acceptanceCriteria.Some? then raws[i].acceptanceCriteria.value else [])
      && processed[i].parentIndex == raws[i].parentIndex
      && processed[i].key == None
    ensures forall i :: 0 <= i < |raws| ==> i in IndexToTicket(processed) && IndexToTicket(processed)[i] == processed[i]
    ensures forall i :: i in IndexToTicket(processed) ==> 0 <= i < |raws|
  {
    processed := [];
    for idx := 0 to |raws|
      invariant |processed| == idx
      invariant forall i :: 0 <= i < idx ==> processed[i] == Normalize(raws[i], i)
    {
      processed := processed + [Normalize(raws[idx], idx)];
    }
    IndexToTicketDense(processed);
  }

  /** The raw form of a ticket: every field present. */
  function Raw(t: Ticket): RawTicket {
    RawTicket(Some(t.issueType), Some(t.summary), Some(t.description), Some(t.acceptanceCriteria), t.parentIndex)
  }

  /**
   * Processing is idempotent: a processed batch, fed back with every field present, comes out
   * unchanged.
   */
  lemma ProcessIdempotent(processed: seq<Ticket>)
    requires forall i :: 0 <= i < |processed| ==> processed[i].index == i && processed[i].key == None
    ensures forall i :: 0 <= i < |processed| ==> Normalize(Raw(processed[i]), i) == processed[i]
  {
  }

  /** `s[:n]`. */
  function Prefix(s: string, n: nat): (r: string)
    ensures r <= s && |r| == if |s| <= n then |s| else n
  {
    if |s| <= n then s else s[..n]
  }

  /** A key of a parsed JSON object: missing, present with `null`, or present with a value. */
  datatype JsonField<T> = Missing | Null | Present(value: T)

  /** `d.get(key, default)`: the default only for a missing key; an explicit `null` is `None`. */
  function Get<T>(f: JsonField<T>, default: T): (r: Option<T>)
    ensures r.None? <==> f.Null?
    ensures f.Missing? ==> r == Some(default)
    ensures f.Present? ==> r == Some(f.value)
  {
    match f
    case Missing => Some(default)
    case Null => None
    case Present(v) => Some(v)
  }

  /** The fields of the analyser's e-mail answer. */
  datatype EmailReply = EmailReply(summary: JsonField<string>, description: JsonField<string>)

  /** The task extracted from an e-mail; a `null` description is kept as `None`. */
  datatype EmailTask = EmailTask(summary: string, description: Option<string>)

  /**
   * The post-processing of `extract_task_from_email`. No usable reply gives no task, and so
   * does a `null` summary, whose slice raises inside the `try`. Otherwise the summary is the
   * reply's (or `Email inquiry` when the key is missing) cut to 255 characters, and the
   * description is the reply's (`None` for a `null`), or, when the key is missing, the first
   * 2000 characters of the body.
   */
  function TaskFromReply(reply: Option<EmailReply>, body: string): (r: Option<EmailTask>)
    ensures r.Some? <==> reply.Some? && !reply.value.summary.Null?
    ensures r.Some? ==> var given := if reply.value.summary.Present? then reply.value.summary.value else "Email inquiry";
      r.value.summary <= given && |r.value.summary| == if |given| <= 255 then |given| else 255
    ensures r.Some? && reply.value.description.Present? ==> r.value.description == Some(reply.value.description.value)
    ensures r.Some? && reply.value.description.Null? ==> r.value.description == None
    ensures r.Some? && reply.value.description.Missing? ==>
      r.value.description.Some? && r.value.description.value <= body && |r.value.description.value| == if |body| <= 2000 then |body| else 2000
  {
    match reply
    case None => None
    case Some(answer) =>
      var summary := Get(answer.summary, "Email inquiry");
      var description := Get(answer.description, if body != "" then Prefix(body, 2000) else "");
      match summary
      case None => None
      case Some(given) => Some(EmailTask(Prefix(given, 255), description))
  }
}
