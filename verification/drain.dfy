/**
 * The batch-draining control loop of the two bulk scripts: `_bulk` (one flush of
 * the shared operation buffer) and the self-recursive `insertDeleteVertices`,
 * modelled as a state machine over the buffer, the router, the progress counter
 * `current`, and an oracle listing the reply (or silence) the socket delivers
 * for each transmitted envelope.
 */
module DrainLoop {
  import opened Wrappers
  import opened BulkOps
  import opened Router

  /** The number of keys spliced off the queue per request. */
  const BatchSize: nat := 500

  /**
   * Why a flush or a source failed: the id of the (last) refused persist, whose
   * message `InvalidIdMessage` renders, or the TypeError the pokec script throws
   * when it calls its undefined `reject` argument.
   */
  datatype Failure = InvalidId(id: IdValue) | RejectIsNotAFunction

  /** Which of the two scripts: they differ in how `_bulk` reacts to a refused id and in how the offset is read. */
  datatype Flavor = Pokec | Twitter

  function IndexOf(f: Flavor): string {
    if f == Pokec then PokecIndex else TwitterIndex
  }

  /** What the socket delivers after an envelope is written: a frame with a callback index, or nothing ever. */
  datatype Reply = Frame(callbackIndex: string) | Silence

  /** The state shared by every flush: the buffer `bulkOperations`, the router, `current`, and the replies still to come. */
  datatype Channel = Channel(buffer: seq<BufferedOp>, router: Router, current: nat, replies: seq<Reply>)

  /**
   * How the promise returned by `_bulk` ends: resolved, rejected with a message,
   * a TypeError thrown synchronously by `_bulk` itself, never settled, or the
   * process killed by a throwing `message` handler.
   */
  datatype FlushResult = Resolved | Rejected(error: Failure) | Thrown | Pending | Crashed

  predicate Settled(r: FlushResult) {
    r.Resolved? || r.Rejected?
  }

  /** The error a refusing twitter flush rejects with: the last refused id that `buildBulkOperations` reported. */
  function Refusal(buffer: seq<BufferedOp>): Failure {
    match BuildBulkOperations(buffer).lastInvalid
    case Some(id) => InvalidId(id)
    case None => InvalidId(NaNId)
  }

  datatype Flushed = Flushed(result: FlushResult, channel: Channel)

  /** `_bulk()`: validate and build the wire array, short-cut an empty buffer, otherwise send and await the reply. */
  function Flush(f: Flavor, ch: Channel): (r: Flushed)
    ensures r.channel.current == ch.current
    // the buffer is emptied only by a resolved flush, and is otherwise left as it was
    ensures r.result.Resolved? ==> r.channel.buffer == []
    ensures !r.result.Resolved? ==> r.channel.buffer == ch.buffer
    // an empty buffer resolves at once with nothing sent
    ensures ch.buffer == [] ==> r == Flushed(Resolved, ch)
  {
    if HoldsInvalid(ch.buffer) then
      Flushed(if f == Pokec then Thrown else Rejected(Refusal(ch.buffer)), ch)
    else if |ch.buffer| == 0 then
      Flushed(Resolved, ch)
    else
      var q := Request(ch.router, IndexOf(f), BuildBulkOperations(ch.buffer).tuples);
      if !q.transmitted || ch.replies == [] then
        Flushed(Pending, ch.(router := q.router))
      else
        var rest := ch.replies[1..];
        match ch.replies[0]
        case Silence => Flushed(Pending, ch.(router := q.router, replies := rest))
        case Frame(t) =>
          if Deliver(q.router, t).Some? then
            Flushed(Resolved, ch.(buffer := [], router := q.router, replies := rest))
          else
            Flushed(Crashed, ch.(router := q.router, replies := rest))
  }

  /** The constants `doProcess` fixes for one source: the script, the op name, `parseInt`, and the offset. */
  datatype Job = Job(flavor: Flavor, op: string, parseInt: ParseInt, offset: JsOffset)

  /** The `forEach` of `insertDeleteVertices`: one pushed operation and one `current++` per key. */
  function Push(job: Job, ch: Channel, batch: seq<Entry>): (c: Channel)
    ensures c.buffer == ch.buffer + SliceOps(IndexOf(job.flavor), job.op, job.parseInt, job.offset, batch)
    ensures c.current == ch.current + |batch|
    ensures c.router == ch.router && c.replies == ch.replies
  {
    ch.(buffer := ch.buffer + SliceOps(IndexOf(job.flavor), job.op, job.parseInt, job.offset, batch),
        current := ch.current + |batch|)
  }

  /**
   * The buffer after `insertDeleteVertices`: what was there before, then one
   * operation per key of the slice, in key order.
   */
  lemma PushAppends(job: Job, ch: Channel, batch: seq<Entry>)
    ensures var c := Push(job, ch, batch);
            && |c.buffer| == |ch.buffer| + |batch|
            && c.buffer[..|ch.buffer|] == ch.buffer
            && forall i :: 0 <= i < |batch| ==>
                 c.buffer[|ch.buffer| + i] == EntryToOp(IndexOf(job.flavor), job.op, job.parseInt, job.offset, batch[i])
  {
    SliceOpsAt(IndexOf(job.flavor), job.op, job.parseInt, job.offset, batch);
  }

  /** How one source ends. */
  datatype SourceOutcome = SourceResolved | SourceRejected(error: Failure) | SourceHung | SourceCrashed

  /** One pass of `insertDeleteVertices`: the keys it pushed and how its flush ended. */
  datatype Attempt = Attempt(batch: seq<Entry>, result: FlushResult)

  datatype DrainRun = DrainRun(outcome: SourceOutcome, channel: Channel, attempts: seq<Attempt>)

  /**
   * The source's outcome once the last flush has ended. A TypeError thrown by the
   * first `_bulk`, which runs inside the executor of `doProcess`'s promise,
   * rejects the source; thrown by a later one, inside a `then` callback, it is
   * lost and the source never settles.
   */
  function Settle(r: FlushResult, inExecutor: bool): SourceOutcome {
    match r
    case Resolved => SourceResolved
    case Rejected(e) => SourceRejected(e)
    case Thrown => if inExecutor then SourceRejected(RejectIsNotAFunction) else SourceHung
    case Pending => SourceHung
    case Crashed => SourceCrashed
  }

  function Min(a: nat, b: nat): nat {
    if a <= b then a else b
  }

  function Last<T>(s: seq<T>): T
    requires |s| > 0
  {
    s[|s| - 1]
  }

  /** One pass of the loop body: push a slice and flush, from the channel it starts with. */
  type Step = (Channel, seq<Entry>) -> Flushed

  /** The pass `insertDeleteVertices` makes for one source: `Push` the slice, then `_bulk()`. */
  function StepOf(job: Job): Step {
    (c: Channel, batch: seq<Entry>) => Flush(job.flavor, Push(job, c, batch))
  }

  /**
   * `insertDeleteVertices(batch, ...)` with `queue` the rest of `vQueue`: push the
   * batch, flush, and whether the flush resolved or rejected, recurse on the next
   * slice of at most `BatchSize` keys while keys remain.
   */
  function Drain(step: Step, ch: Channel, batch: seq<Entry>, queue: seq<Entry>, first: bool): (run: DrainRun)
    ensures |run.attempts| >= 1 && run.attempts[0].batch == batch
    ensures queue == [] ==> |run.attempts| == 1
    decreases |queue|
  {
    var fl := step(ch, batch);
    var a := Attempt(batch, fl.result);
    if Settled(fl.result) && |queue| > 0 then
      var n := Min(BatchSize, |queue|);
      var rest := Drain(step, fl.channel, queue[..n], queue[n..], false);
      DrainRun(rest.outcome, rest.channel, [a] + rest.attempts)
    else
      DrainRun(Settle(fl.result, first), fl.channel, [a])
  }

  /** Every pass adds the number of keys it pushed to `current`, and does nothing else to it. */
  ghost predicate CountsKeys(step: Step) {
    forall c: Channel, batch: seq<Entry> :: step(c, batch).channel.current == c.current + |batch|
  }

  /** A pass that resolves leaves the buffer empty. */
  ghost predicate EmptiesOnResolve(step: Step) {
    forall c: Channel, batch: seq<Entry> :: step(c, batch).result.Resolved? ==> step(c, batch).channel.buffer == []
  }

  /** `doProcess` after loading: `vQueue` holds every key, and the first slice starts the drain. */
  function ProcessSource(job: Job, ch: Channel, entries: seq<Entry>): (run: DrainRun)
    ensures |run.attempts| >= 1
  {
    var n := Min(BatchSize, |entries|);
    Drain(StepOf(job), ch, entries[..n], entries[n..], true)
  }

  /** The keys the attempts pushed, in order. */
  function Covered(attempts: seq<Attempt>): seq<Entry> {
    if attempts == [] then [] else attempts[0].batch + Covered(attempts[1..])
  }

  predicate SettledOutcome(o: SourceOutcome) {
    o.SourceResolved? || o.SourceRejected?
  }

  function CeilDiv(n: nat, d: nat): nat
    requires d > 0
  {
    (n + d - 1) / d
  }

  /** The buffer holds a persist whose id is not an integer. */
  predicate HoldsInvalid(buffer: seq<BufferedOp>) {
    exists i :: 0 <= i < |buffer| && InvalidPersist(buffer[i])
  }

  /** The operation pushed for this key passes `buildBulkOperations`' id check. */
  predicate ValidKey(job: Job, e: Entry) {
    !InvalidPersist(EntryToOp(IndexOf(job.flavor), job.op, job.parseInt, job.offset, e))
  }

  /** The envelope a flush of a fresh buffer holding exactly this slice's operations writes. */
  function EnvelopeOf(job: Job, batch: seq<Entry>): Envelope {
    Envelope(Token, "bulk", IndexOf(job.flavor),
             BuildBulkOperations(SliceOps(IndexOf(job.flavor), job.op, job.parseInt, job.offset, batch)).tuples)
  }

  /** Which envelope a pass writes for a slice. */
  type Enveloper = seq<Entry> -> Envelope

  /** The bulk scripts' pass writes `EnvelopeOf` the slice. */
  function EnvelopeFor(job: Job): Enveloper {
    (batch: seq<Entry>) => EnvelopeOf(job, batch)
  }

  /** One envelope per attempt, in order. */
  function Envelopes(env: Enveloper, attempts: seq<Attempt>): seq<Envelope> {
    if attempts == [] then [] else [env(attempts[0].batch)] + Envelopes(env, attempts[1..])
  }

  /**
   * A flush refuses exactly when the buffer holds a persist with a non-integer id:
   * twitter rejects, pokec throws; either way nothing is written and the buffer
   * is kept.
   */
  lemma FlushRefuses(f: Flavor, ch: Channel)
    ensures Flush(f, ch).result.Rejected? <==> f == Twitter && HoldsInvalid(ch.buffer)
    ensures Flush(f, ch).result.Thrown? <==> f == Pokec && HoldsInvalid(ch.buffer)
    ensures Flush(f, ch).result.Rejected? || Flush(f, ch).result.Thrown? ==> Flush(f, ch).channel == ch
  {
    BuildRefusal(ch.buffer);
  }

  /**
   * A flush writes at most one envelope, carrying the buffer's wire array, and a
   * non-empty buffer is emptied only after its envelope was written and answered.
   */
  lemma FlushSends(f: Flavor, ch: Channel)
    ensures var r := Flush(f, ch);
            || r.channel.router.sent == ch.router.sent
            || r.channel.router.sent == ch.router.sent + [Envelope(Token, "bulk", IndexOf(f), BuildBulkOperations(ch.buffer).tuples)]
    ensures var r := Flush(f, ch);
            r.result.Resolved? && ch.buffer != [] ==>
              && r.channel.router.sent == ch.router.sent + [Envelope(Token, "bulk", IndexOf(f), BuildBulkOperations(ch.buffer).tuples)]
              && r.channel.router.slot == Some(r.channel.router.counter)
              && |ch.replies| > 0 && ch.replies[0] == Frame(Token)
  {
  }
}
