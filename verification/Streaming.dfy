/** The server side of a sync stream: events in order, each of which may fail to be sent. */
module Streaming {

  datatype Response = Response(addedCount: int, removedCount: int, addedFiles: seq<string>, removedFiles: seq<string>)

  datatype Event = Log(message: string) | ResultEvent(response: Response) | FlushResult(success: bool)

  class Stream {
    /** Whether the n-th attempt to send fails. */
    const fails: nat -> bool
    var attempts: nat
    /** What the client received. */
    var sent: seq<Event>

    constructor (fails: nat -> bool)
      ensures this.fails == fails && attempts == 0 && sent == []
    {
      this.fails, attempts, sent := fails, 0, [];
    }

    method Send(e: Event) returns (ok: bool)
      modifies this
      ensures attempts == old(attempts) + 1 && ok == !fails(old(attempts))
      ensures sent == old(sent) + if ok then [e] else []
    {
      ok := !fails(attempts);
      attempts := attempts + 1;
      if ok {
        sent := sent + [e];
      }
    }
  }

  /** `after` is `before` followed by LOG events only. */
  ghost predicate OnlyLogs(before: seq<Event>, after: seq<Event>) {
    before <= after && forall i :: |before| <= i < |after| ==> after[i].Log?
  }

  /** `after` is `before` followed by LOG events and then `last`. */
  ghost predicate EndsWith(before: seq<Event>, after: seq<Event>, last: Event) {
    exists logs :: OnlyLogs(before, logs) && after == logs + [last]
  }

  lemma LogsCompose(a: seq<Event>, b: seq<Event>, c: seq<Event>, last: Event, sent: bool)
    requires OnlyLogs(a, b) && if sent then EndsWith(b, c, last) else OnlyLogs(b, c)
    ensures if sent then EndsWith(a, c, last) else OnlyLogs(a, c)
  {
  }
}
