/**
 * `bulkESRequest` and the socket's `message` handler: the request counter with
 * its hard limit, the envelopes written to the socket, and the single resolver
 * slot `callbacks['bulk1']` that every request overwrites.
 */
module Router {
  import opened Wrappers
  import opened BulkOps

  /** At most this many requests are ever sent. */
  const Limit: nat := 10000000
  /** The one callback index every request uses. */
  const Token := "bulk1"

  /** `{callbackIndex, action: "bulk", object: {index, operations}}` as serialised onto the socket. */
  datatype Envelope = Envelope(callbackIndex: string, action: string, index: string, operations: seq<WireTuple>)

  /**
   * `counter`, the envelopes written so far, and which request's resolver sits in
   * `callbacks['bulk1']` (requests are numbered by the counter value they drew).
   */
  datatype Router = Router(counter: nat, sent: seq<Envelope>, slot: Option<nat>)

  /** The router before anything has been sent. */
  const Initial := Router(0, [], None)

  /** The outcome of `bulkESRequest(operations)`: the new router state and whether the envelope was written. */
  datatype Requested = Requested(router: Router, transmitted: bool)

  function Request(r: Router, index: string, operations: seq<WireTuple>): (q: Requested)
    ensures q.router.counter == r.counter + 1
    ensures q.transmitted <==> r.counter + 1 <= Limit
    ensures q.transmitted ==> q.router.sent == r.sent + [Envelope(Token, "bulk", index, operations)]
    ensures q.transmitted ==> q.router.slot == Some(q.router.counter)
    ensures !q.transmitted ==> q.router.sent == r.sent && q.router.slot == r.slot
  {
    var c := r.counter + 1;
    if c <= Limit then
      Requested(Router(c, r.sent + [Envelope(Token, "bulk", index, operations)], Some(c)), true)
    else
      Requested(r.(counter := c), false)
  }

  /**
   * The `message` handler receiving a frame with callback index `token`: the number
   * of the request whose resolver it runs, or None when `callbacks[token]` is
   * undefined and calling it throws.
   */
  function Deliver(r: Router, token: string): (resolved: Option<nat>)
    ensures resolved.Some? <==> token == Token && r.slot.Some?
    ensures resolved.Some? ==> resolved == r.slot
  {
    if token == Token then r.slot else None
  }

  /**
   * Responses are not correlated with requests: once a second request has been
   * sent, every `bulk1` frame, including a late reply to the first request,
   * resolves the second one, so the first can never settle.
   */
  lemma SecondRequestShadowsFirst(r: Router, index: string, ops1: seq<WireTuple>, ops2: seq<WireTuple>)
    requires r.counter + 2 <= Limit
    ensures var q1 := Request(r, index, ops1).router;
            var q2 := Request(q1, index, ops2).router;
            Deliver(q2, Token) == Some(r.counter + 2) && Deliver(q2, Token) != Some(q1.counter)
  {
  }

  /** The router after `bulkESRequest` has been called once per operation list, in order. */
  function RequestAll(r: Router, index: string, opss: seq<seq<WireTuple>>): Router
    decreases |opss|
  {
    if opss == [] then r
    else Request(RequestAll(r, index, opss[..|opss| - 1]), index, opss[|opss| - 1]).router
  }

  /**
   * A run of requests within the limit writes one `bulk1` envelope per request,
   * in call order, after what was already on the socket; the counter advances by
   * one per request, and a `bulk1` frame then resolves the last request only.
   */
  lemma {:induction false} RequestsInOrder(r: Router, index: string, opss: seq<seq<WireTuple>>)
    requires r.counter + |opss| <= Limit
    ensures var q := RequestAll(r, index, opss);
            && q.counter == r.counter + |opss|
            && |q.sent| == |r.sent| + |opss|
            && q.sent[..|r.sent|] == r.sent
            && (forall i :: 0 <= i < |opss| ==> q.sent[|r.sent| + i] == Envelope(Token, "bulk", index, opss[i]))
            && (opss != [] ==> Deliver(q, Token) == Some(r.counter + |opss|))
    decreases |opss|
  {
    if opss != [] {
      var init := opss[..|opss| - 1];
      RequestsInOrder(r, index, init);
      var p := RequestAll(r, index, init);
      var q := RequestAll(r, index, opss);
      assert q.sent == p.sent + [Envelope(Token, "bulk", index, opss[|opss| - 1])];
      assert forall i :: 0 <= i < |init| ==> init[i] == opss[i];
    }
  }

  /** A request past the limit writes nothing and leaves the slot to an earlier request, so nothing can resolve it. */
  lemma OverLimitNeverSettles(r: Router, index: string, ops: seq<WireTuple>, token: string)
    requires r.counter >= Limit
    requires r.slot.Some? ==> r.slot.value <= r.counter
    ensures var q := Request(r, index, ops);
            !q.transmitted && q.router.sent == r.sent && Deliver(q.router, token) != Some(q.router.counter)
  {
  }
}
