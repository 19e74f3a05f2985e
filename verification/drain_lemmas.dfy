/**
 * Properties of the drain loop of the bulk scripts: how the key queue is cut
 * into slices, how many flushes a source causes, how a source settles, and what
 * a refused id does to the rest of the source.
 */
module DrainLemmas {
  import opened Wrappers
  import opened BulkOps
  import opened Router
  import opened DrainLoop

  /** Unfolds one step of `Drain` when the flush settled and keys remain. */
  lemma Unfold(step: Step, ch: Channel, batch: seq<Entry>, queue: seq<Entry>, first: bool)
    requires Settled(step(ch, batch).result) && |queue| > 0
    ensures var fl := step(ch, batch);
            var n := Min(BatchSize, |queue|);
            var rest := Drain(step, fl.channel, queue[..n], queue[n..], false);
            var run := Drain(step, ch, batch, queue, first);
            && run.outcome == rest.outcome
            && run.channel == rest.channel
            && run.attempts == [Attempt(batch, fl.result)] + rest.attempts
  {
  }

  /** Unfolds the last step of `Drain`: the flush did not settle or no keys remain. */
  lemma UnfoldStop(step: Step, ch: Channel, batch: seq<Entry>, queue: seq<Entry>, first: bool)
    requires !Settled(step(ch, batch).result) || |queue| == 0
    ensures var fl := step(ch, batch);
            Drain(step, ch, batch, queue, first) == DrainRun(Settle(fl.result, first), fl.channel, [Attempt(batch, fl.result)])
  {
  }

  lemma CoveredCons(a: Attempt, rest: seq<Attempt>)
    ensures Covered([a] + rest) == a.batch + Covered(rest)
  {
    assert ([a] + rest)[1..] == rest;
  }

  /** An attempt in front of attempts covering a queue cut in two covers its own slice and the whole queue. */
  lemma CoverStep(a: Attempt, rest: seq<Attempt>, queue: seq<Entry>, n: nat)
    requires n <= |queue| && Covered(rest) == queue[..n] + queue[n..]
    ensures Covered([a] + rest) == a.batch + queue
  {
    CoveredCons(a, rest);
    assert queue[..n] + queue[n..] == queue;
  }

  /** The source settles exactly as its last flush did. */
  lemma {:induction false} DrainOutcome(step: Step, ch: Channel, batch: seq<Entry>, queue: seq<Entry>, first: bool)
    ensures var run := Drain(step, ch, batch, queue, first);
            run.outcome == Settle(Last(run.attempts).result, first && |run.attempts| == 1)
    decreases |queue|
  {
    var fl := step(ch, batch);
    if Settled(fl.result) && |queue| > 0 {
      var n := Min(BatchSize, |queue|);
      DrainOutcome(step, fl.channel, queue[..n], queue[n..], false);
      Unfold(step, ch, batch, queue, first);
    }
  }

  /** A failed batch does not stop the drain: every flush before the last one settled (resolved or rejected). */
  lemma {:induction false} DrainContinues(step: Step, ch: Channel, batch: seq<Entry>, queue: seq<Entry>, first: bool)
    ensures var run := Drain(step, ch, batch, queue, first);
            forall i :: 0 <= i < |run.attempts| - 1 ==> Settled(run.attempts[i].result)
    decreases |queue|
  {
    var run := Drain(step, ch, batch, queue, first);
    var fl := step(ch, batch);
    if Settled(fl.result) && |queue| > 0 {
      var n := Min(BatchSize, |queue|);
      var rest := Drain(step, fl.channel, queue[..n], queue[n..], false);
      DrainContinues(step, fl.channel, queue[..n], queue[n..], false);
      Unfold(step, ch, batch, queue, first);
      forall i | 0 <= i < |run.attempts| - 1
        ensures Settled(run.attempts[i].result)
      {
        if i > 0 {
          assert run.attempts[i] == rest.attempts[i - 1];
        }
      }
    }
  }

  /** When every flush settles, the slices pushed are exactly the keys given, in order. */
  lemma {:induction false} DrainCoversAll(step: Step, ch: Channel, batch: seq<Entry>, queue: seq<Entry>, first: bool)
    ensures var run := Drain(step, ch, batch, queue, first);
            Settled(Last(run.attempts).result) ==> Covered(run.attempts) == batch + queue
    decreases |queue|
  {
    var run := Drain(step, ch, batch, queue, first);
    var fl := step(ch, batch);
    if Settled(fl.result) && |queue| > 0 {
      var n := Min(BatchSize, |queue|);
      var rest := Drain(step, fl.channel, queue[..n], queue[n..], false);
      DrainCoversAll(step, fl.channel, queue[..n], queue[n..], false);
      Unfold(step, ch, batch, queue, first);
      assert Last(run.attempts) == Last(rest.attempts);
      if Settled(Last(rest.attempts).result) {
        CoverStep(Attempt(batch, fl.result), rest.attempts, queue, n);
      }
    } else {
      UnfoldStop(step, ch, batch, queue, first);
      if Settled(fl.result) {
        CoveredCons(Attempt(batch, fl.result), []);
        assert batch + queue == batch;
      }
    }
  }

  /**
   * The slices the drain pushes are, in order, a prefix of the keys it was given,
   * all of them once the source settles; when each pass counts its keys into
   * `current`, `current` grows by one per pushed key.
   */
  lemma {:induction false} DrainCovers(step: Step, ch: Channel, batch: seq<Entry>, queue: seq<Entry>, first: bool)
    requires CountsKeys(step)
    ensures var run := Drain(step, ch, batch, queue, first);
            && Covered(run.attempts) <= batch + queue
            && run.channel.current == ch.current + |Covered(run.attempts)|
    decreases |queue|
  {
    var run := Drain(step, ch, batch, queue, first);
    var fl := step(ch, batch);
    if Settled(fl.result) && |queue| > 0 {
      var n := Min(BatchSize, |queue|);
      var rest := Drain(step, fl.channel, queue[..n], queue[n..], false);
      DrainCovers(step, fl.channel, queue[..n], queue[n..], false);
      Unfold(step, ch, batch, queue, first);
      CoveredCons(Attempt(batch, fl.result), rest.attempts);
      assert queue[..n] + queue[n..] == queue;
      assert batch + queue == batch + (queue[..n] + queue[n..]);
    } else {
      UnfoldStop(step, ch, batch, queue, first);
      CoveredCons(Attempt(batch, fl.result), []);
    }
  }

  /** Every slice after the first holds between 1 and `BatchSize` keys, and all but the last exactly `BatchSize`. */
  lemma {:induction false} DrainSlices(step: Step, ch: Channel, batch: seq<Entry>, queue: seq<Entry>, first: bool)
    ensures var run := Drain(step, ch, batch, queue, first);
            && (forall i :: 1 <= i < |run.attempts| ==> 1 <= |run.attempts[i].batch| <= BatchSize)
            && (forall i :: 1 <= i < |run.attempts| - 1 ==> |run.attempts[i].batch| == BatchSize)
    decreases |queue|
  {
    var fl := step(ch, batch);
    if Settled(fl.result) && |queue| > 0 {
      var n := Min(BatchSize, |queue|);
      var rest := Drain(step, fl.channel, queue[..n], queue[n..], false);
      DrainSlices(step, fl.channel, queue[..n], queue[n..], false);
      Unfold(step, ch, batch, queue, first);
      if |rest.attempts| > 1 {
        assert n == BatchSize;
      }
    }
  }

  lemma CeilStep(q: nat)
    requires q > 0
    ensures CeilDiv(q, BatchSize) == 1 + CeilDiv(q - Min(BatchSize, q), BatchSize)
  {
  }

  /** A drain whose flushes all settle makes one flush attempt for its own slice and one per `BatchSize` keys (rounded up) of the rest. */
  lemma {:induction false} DrainCount(step: Step, ch: Channel, batch: seq<Entry>, queue: seq<Entry>, first: bool)
    ensures var run := Drain(step, ch, batch, queue, first);
            Settled(Last(run.attempts).result) ==> |run.attempts| == 1 + CeilDiv(|queue|, BatchSize)
    decreases |queue|
  {
    var run := Drain(step, ch, batch, queue, first);
    var fl := step(ch, batch);
    if Settled(fl.result) && |queue| > 0 {
      var n := Min(BatchSize, |queue|);
      DrainCount(step, fl.channel, queue[..n], queue[n..], false);
      Unfold(step, ch, batch, queue, first);
      CeilStep(|queue|);
      assert Last(run.attempts) == Last(Drain(step, fl.channel, queue[..n], queue[n..], false).attempts);
    }
  }

  /** Twitter: a buffer holding a refused persist makes the flush reject and changes nothing. */
  lemma FlushPoisoned(ch: Channel)
    requires HoldsInvalid(ch.buffer)
    ensures Flush(Twitter, ch).result.Rejected? && Flush(Twitter, ch).channel == ch
  {
    BuildRefusal(ch.buffer);
  }

  /** Pushing more keys never removes an operation already buffered. */
  lemma PushKeepsInvalid(job: Job, ch: Channel, batch: seq<Entry>)
    requires HoldsInvalid(ch.buffer)
    ensures HoldsInvalid(Push(job, ch, batch).buffer)
  {
    var k :| 0 <= k < |ch.buffer| && InvalidPersist(ch.buffer[k]);
    assert Push(job, ch, batch).buffer[k] == ch.buffer[k];
  }

  /** The pass of the bulk scripts counts every pushed key into `current`. */
  lemma StepOfCounts(job: Job)
    ensures CountsKeys(StepOf(job))
  {
    forall c: Channel, batch: seq<Entry>
      ensures StepOf(job)(c, batch).channel.current == c.current + |batch|
    {
      StepIs(job, c, batch);
    }
  }

  /** The pass of the bulk scripts empties the buffer whenever its flush resolves. */
  lemma StepOfEmpties(job: Job)
    ensures EmptiesOnResolve(StepOf(job))
  {
    forall c: Channel, batch: seq<Entry> | StepOf(job)(c, batch).result.Resolved?
      ensures StepOf(job)(c, batch).channel.buffer == []
    {
      StepIs(job, c, batch);
    }
  }

  /** A drain that resolves ends with an empty buffer, ready for the next source. */
  lemma {:induction false} DrainResolvedEmpties(step: Step, ch: Channel, batch: seq<Entry>, queue: seq<Entry>, first: bool)
    requires EmptiesOnResolve(step)
    ensures var run := Drain(step, ch, batch, queue, first);
            run.outcome == SourceResolved ==> run.channel.buffer == []
    decreases |queue|
  {
    var fl := step(ch, batch);
    if Settled(fl.result) && |queue| > 0 {
      var n := Min(BatchSize, |queue|);
      DrainResolvedEmpties(step, fl.channel, queue[..n], queue[n..], false);
      Unfold(step, ch, batch, queue, first);
    } else {
      UnfoldStop(step, ch, batch, queue, first);
    }
  }

  /** The concrete pass pushes, then flushes. */
  lemma StepIs(job: Job, c: Channel, batch: seq<Entry>)
    ensures StepOf(job)(c, batch) == Flush(job.flavor, Push(job, c, batch))
  {
  }

  /**
   * Twitter: once a persist with a non-integer id is in the buffer, every later
   * flush of the source rejects and the source rejects.
   */
  lemma {:induction false} DrainPoisoned(job: Job, ch: Channel, batch: seq<Entry>, queue: seq<Entry>, first: bool)
    requires job.flavor == Twitter
    requires HoldsInvalid(Push(job, ch, batch).buffer)
    ensures var run := Drain(StepOf(job), ch, batch, queue, first);
            && run.outcome.SourceRejected?
            && (forall i :: 0 <= i < |run.attempts| ==> run.attempts[i].result.Rejected?)
    decreases |queue|
  {
    var step := StepOf(job);
    var run := Drain(step, ch, batch, queue, first);
    var pushed := Push(job, ch, batch);
    FlushPoisoned(pushed);
    StepIs(job, ch, batch);
    if |queue| > 0 {
      var n := Min(BatchSize, |queue|);
      var rest := Drain(step, pushed, queue[..n], queue[n..], false);
      PushKeepsInvalid(job, pushed, queue[..n]);
      DrainPoisoned(job, pushed, queue[..n], queue[n..], false);
      Unfold(step, ch, batch, queue, first);
      forall i | 0 <= i < |run.attempts|
        ensures run.attempts[i].result.Rejected?
      {
        if i > 0 {
          assert run.attempts[i] == rest.attempts[i - 1];
        }
      }
    } else {
      UnfoldStop(step, ch, batch, queue, first);
    }
  }

  /** Pushing two slices one after the other is pushing their concatenation. */
  lemma PushConcat(job: Job, ch: Channel, a: seq<Entry>, b: seq<Entry>)
    ensures Push(job, Push(job, ch, a), b) == Push(job, ch, a + b)
  {
    var index := IndexOf(job.flavor);
    SliceOpsConcat(index, job.op, job.parseInt, job.offset, a, b);
    var sa := SliceOps(index, job.op, job.parseInt, job.offset, a);
    var sb := SliceOps(index, job.op, job.parseInt, job.offset, b);
    assert ch.buffer + sa + sb == ch.buffer + (sa + sb);
  }

  /**
   * Twitter: after a refused id nothing more is sent for the source, and the
   * channel ends as if every key had been pushed with no flush at all: the buffer
   * keeps every operation, the refused one included.
   */
  lemma {:induction false} DrainPoisonedKeepsBuffer(job: Job, ch: Channel, batch: seq<Entry>, queue: seq<Entry>, first: bool)
    requires job.flavor == Twitter
    requires HoldsInvalid(Push(job, ch, batch).buffer)
    ensures Drain(StepOf(job), ch, batch, queue, first).channel == Push(job, ch, batch + queue)
    decreases |queue|
  {
    var pushed := Push(job, ch, batch);
    if |queue| > 0 {
      var n := Min(BatchSize, |queue|);
      PushKeepsInvalid(job, pushed, queue[..n]);
      DrainPoisonedKeepsBuffer(job, pushed, queue[..n], queue[n..], false);
      KeepsBufferStep(job, ch, batch, queue, first);
    } else {
      FlushPoisoned(pushed);
      StepIs(job, ch, batch);
      UnfoldStop(StepOf(job), ch, batch, queue, first);
      assert batch + queue == batch;
    }
  }

  /** One step of `DrainPoisonedKeepsBuffer`: a rejected flush hands the pushed channel on to the rest of the drain. */
  lemma KeepsBufferStep(job: Job, ch: Channel, batch: seq<Entry>, queue: seq<Entry>, first: bool)
    requires job.flavor == Twitter && HoldsInvalid(Push(job, ch, batch).buffer) && |queue| > 0
    requires var n := Min(BatchSize, |queue|);
             Drain(StepOf(job), Push(job, ch, batch), queue[..n], queue[n..], false).channel ==
               Push(job, Push(job, ch, batch), queue[..n] + queue[n..])
    ensures Drain(StepOf(job), ch, batch, queue, first).channel == Push(job, ch, batch + queue)
  {
    var n := Min(BatchSize, |queue|);
    PoisonedStep(job, ch, batch, queue, first);
    assert queue[..n] + queue[n..] == queue;
    PushConcat(job, ch, batch, queue);
  }

  /** Twitter: a rejected flush leaves the pushed channel, and the drain goes on from it. */
  lemma PoisonedStep(job: Job, ch: Channel, batch: seq<Entry>, queue: seq<Entry>, first: bool)
    requires job.flavor == Twitter && HoldsInvalid(Push(job, ch, batch).buffer) && |queue| > 0
    ensures var n := Min(BatchSize, |queue|);
            Drain(StepOf(job), ch, batch, queue, first).channel ==
              Drain(StepOf(job), Push(job, ch, batch), queue[..n], queue[n..], false).channel
  {
    FlushPoisoned(Push(job, ch, batch));
    StepIs(job, ch, batch);
    Unfold(StepOf(job), ch, batch, queue, first);
  }

  /**
   * Pokec: a buffer holding a refused persist makes `_bulk` throw, which ends the
   * source at once: rejected when the throw happens in `doProcess`'s executor
   * (the first slice), never settled otherwise. Nothing is sent and the buffer is kept.
   */
  lemma DrainPokecThrows(job: Job, ch: Channel, batch: seq<Entry>, queue: seq<Entry>, first: bool)
    requires job.flavor == Pokec
    requires HoldsInvalid(Push(job, ch, batch).buffer)
    ensures Drain(StepOf(job), ch, batch, queue, first) ==
      DrainRun(if first then SourceRejected(RejectIsNotAFunction) else SourceHung, Push(job, ch, batch), [Attempt(batch, Thrown)])
  {
    StepIs(job, ch, batch);
    FlushRefuses(Pokec, Push(job, ch, batch));
    UnfoldStop(StepOf(job), ch, batch, queue, first);
  }

  /** Every key of the sequence pushes an operation `buildBulkOperations` accepts. */
  predicate AllValid(job: Job, keys: seq<Entry>) {
    forall i :: 0 <= i < |keys| ==> ValidKey(job, keys[i])
  }

  /** The socket answers the next `k` envelopes, and the counter has room for them. */
  predicate Answers(ch: Channel, k: nat) {
    && ch.router.counter + k <= Limit
    && k <= |ch.replies|
    && forall i :: 0 <= i < k ==> ch.replies[i] == Frame(Token)
  }

  /** A slice of valid keys pushes no refused persist. */
  lemma ValidSlice(job: Job, batch: seq<Entry>)
    requires AllValid(job, batch)
    ensures !HoldsInvalid(SliceOps(IndexOf(job.flavor), job.op, job.parseInt, job.offset, batch))
  {
    SliceOpsAt(IndexOf(job.flavor), job.op, job.parseInt, job.offset, batch);
  }

  /**
   * A buffer with no refused persist, when the counter has room and the socket
   * answers `bulk1`, is sent as one envelope and emptied.
   */
  lemma FlushAnswered(f: Flavor, ch: Channel)
    requires !HoldsInvalid(ch.buffer) && ch.buffer != []
    requires Answers(ch, 1)
    ensures var r := Flush(f, ch);
            && r.result.Resolved?
            && r.channel.buffer == []
            && r.channel.replies == ch.replies[1..]
            && r.channel.router.counter == ch.router.counter + 1
            && r.channel.router.sent == ch.router.sent + [Envelope(Token, "bulk", IndexOf(f), BuildBulkOperations(ch.buffer).tuples)]
  {
  }

  lemma EnvelopesCons(env: Enveloper, a: Attempt, rest: seq<Attempt>)
    ensures Envelopes(env, [a] + rest) == [env(a.batch)] + Envelopes(env, rest)
  {
    assert ([a] + rest)[1..] == rest;
  }

  /** The valid keys of a concatenation are valid keys of each part. */
  lemma AllValidSplit(job: Job, a: seq<Entry>, b: seq<Entry>)
    requires AllValid(job, a + b)
    ensures AllValid(job, a) && AllValid(job, b)
  {
    forall i | 0 <= i < |a| ensures ValidKey(job, a[i]) {
      assert a[i] == (a + b)[i];
    }
    forall i | 0 <= i < |b| ensures ValidKey(job, b[i]) {
      assert b[i] == (a + b)[|a| + i];
    }
  }

  /** A channel that consumed one answer and one request number still has the rest. */
  lemma AnswersNext(ch: Channel, c: Channel, k: nat)
    requires Answers(ch, k + 1)
    requires c.replies == ch.replies[1..] && c.router.counter == ch.router.counter + 1
    ensures Answers(c, k)
  {
    forall i | 0 <= i < k ensures c.replies[i] == Frame(Token) {
      assert c.replies[i] == ch.replies[i + 1];
    }
  }

  /** One pass over a slice of valid keys from an empty buffer, answered: one envelope, resolved, buffer emptied. */
  lemma StepAnswered(job: Job, ch: Channel, batch: seq<Entry>)
    requires ch.buffer == [] && batch != []
    requires AllValid(job, batch)
    requires Answers(ch, 1)
    ensures var fl := StepOf(job)(ch, batch);
            && fl.result == Resolved
            && fl.channel.buffer == []
            && fl.channel.replies == ch.replies[1..]
            && fl.channel.router.counter == ch.router.counter + 1
            && fl.channel.router.sent == ch.router.sent + [EnvelopeOf(job, batch)]
  {
    var pushed := Push(job, ch, batch);
    ValidSlice(job, batch);
    assert pushed.buffer == SliceOps(IndexOf(job.flavor), job.op, job.parseInt, job.offset, batch);
    FlushAnswered(job.flavor, pushed);
    StepIs(job, ch, batch);
  }

  /** What `StepAnswered` states, for every channel and slice. */
  ghost predicate SendsEach(step: Step, job: Job, env: Enveloper) {
    forall c: Channel, batch: seq<Entry> ::
      c.buffer == [] && batch != [] && AllValid(job, batch) && Answers(c, 1) ==>
        && step(c, batch).result == Resolved
        && step(c, batch).channel.buffer == []
        && step(c, batch).channel.replies == c.replies[1..]
        && step(c, batch).channel.router.counter == c.router.counter + 1
        && step(c, batch).channel.router.sent == c.router.sent + [env(batch)]
  }

  lemma StepOfSends(job: Job)
    ensures SendsEach(StepOf(job), job, EnvelopeFor(job))
  {
    forall c: Channel, batch: seq<Entry> | c.buffer == [] && batch != [] && AllValid(job, batch) && Answers(c, 1)
      ensures && StepOf(job)(c, batch).result == Resolved
              && StepOf(job)(c, batch).channel.buffer == []
              && StepOf(job)(c, batch).channel.replies == c.replies[1..]
              && StepOf(job)(c, batch).channel.router.counter == c.router.counter + 1
              && StepOf(job)(c, batch).channel.router.sent == c.router.sent + [EnvelopeFor(job)(batch)]
    {
      StepAnswered(job, c, batch);
    }
  }

  lemma UseSends(step: Step, job: Job, env: Enveloper, c: Channel, batch: seq<Entry>)
    requires SendsEach(step, job, env)
    requires c.buffer == [] && batch != [] && AllValid(job, batch) && Answers(c, 1)
    ensures && step(c, batch).result == Resolved
            && step(c, batch).channel.buffer == []
            && step(c, batch).channel.replies == c.replies[1..]
            && step(c, batch).channel.router.counter == c.router.counter + 1
            && step(c, batch).channel.router.sent == c.router.sent + [env(batch)]
  {
  }

  /** An attempt in front of the others puts its envelope in front of theirs. */
  lemma SentCons(env: Enveloper, sent: seq<Envelope>, batch: seq<Entry>, result: FlushResult, sent': seq<Envelope>, attempts: seq<Attempt>)
    requires sent' == sent + [env(batch)] + Envelopes(env, attempts)
    ensures sent' == sent + Envelopes(env, [Attempt(batch, result)] + attempts)
  {
    EnvelopesCons(env, Attempt(batch, result), attempts);
    assert sent + [env(batch)] + Envelopes(env, attempts) == sent + ([env(batch)] + Envelopes(env, attempts));
  }

  /** Answering `k` envelopes answers any fewer. */
  lemma AnswersFewer(ch: Channel, k: nat, j: nat)
    requires Answers(ch, k) && j <= k
    ensures Answers(ch, j)
  {
  }

  /**
   * When every key is valid and the socket answers every envelope (one per key
   * is more than enough), every flush resolves and the source resolves with an
   * empty buffer, having drawn one request number per flush.
   */
  lemma {:induction false} DrainAllAnswered(job: Job, env: Enveloper, step: Step, ch: Channel, batch: seq<Entry>, queue: seq<Entry>, first: bool)
    requires SendsEach(step, job, env)
    requires ch.buffer == [] && batch != []
    requires AllValid(job, batch + queue)
    requires Answers(ch, 1 + |queue|)
    ensures var run := Drain(step, ch, batch, queue, first);
            && run.outcome == SourceResolved
            && (forall i :: 0 <= i < |run.attempts| ==> run.attempts[i].result == Resolved)
            && run.channel.buffer == []
            && run.channel.router.counter == ch.router.counter + |run.attempts|
    decreases |queue|
  {
    AllValidSplit(job, batch, queue);
    AnswersFewer(ch, 1 + |queue|, 1);
    UseSends(step, job, env, ch, batch);
    var fl := step(ch, batch);
    if |queue| > 0 {
      var n := Min(BatchSize, |queue|);
      assert queue[..n] + queue[n..] == queue;
      AnswersFewer(ch, 1 + |queue|, 2 + |queue[n..]|);
      AnswersNext(ch, fl.channel, 1 + |queue[n..]|);
      DrainAllAnswered(job, env, step, fl.channel, queue[..n], queue[n..], false);
      Unfold(step, ch, batch, queue, first);
      var run := Drain(step, ch, batch, queue, first);
      var rest := Drain(step, fl.channel, queue[..n], queue[n..], false);
      forall i | 0 <= i < |run.attempts|
        ensures run.attempts[i].result == Resolved
      {
        if i > 0 {
          assert run.attempts[i] == rest.attempts[i - 1];
        }
      }
    } else {
      UnfoldStop(step, ch, batch, queue, first);
    }
  }

  /**
   * Under the same conditions the drain sends one envelope per slice, in order,
   * each carrying exactly that slice's operations.
   */
  lemma {:induction false} DrainAnsweredSends(job: Job, env: Enveloper, step: Step, ch: Channel, batch: seq<Entry>, queue: seq<Entry>, first: bool)
    requires SendsEach(step, job, env)
    requires ch.buffer == [] && batch != []
    requires AllValid(job, batch + queue)
    requires Answers(ch, 1 + |queue|)
    ensures var run := Drain(step, ch, batch, queue, first);
            run.channel.router.sent == ch.router.sent + Envelopes(env, run.attempts)
    decreases |queue|
  {
    AllValidSplit(job, batch, queue);
    AnswersFewer(ch, 1 + |queue|, 1);
    UseSends(step, job, env, ch, batch);
    var fl := step(ch, batch);
    if |queue| > 0 {
      var n := Min(BatchSize, |queue|);
      var rest := Drain(step, fl.channel, queue[..n], queue[n..], false);
      assert queue[..n] + queue[n..] == queue;
      AnswersFewer(ch, 1 + |queue|, 2 + |queue[n..]|);
      AnswersNext(ch, fl.channel, 1 + |queue[n..]|);
      DrainAnsweredSends(job, env, step, fl.channel, queue[..n], queue[n..], false);
      Unfold(step, ch, batch, queue, first);
      SentCons(env, ch.router.sent, batch, fl.result, rest.channel.router.sent, rest.attempts);
    } else {
      UnfoldStop(step, ch, batch, queue, first);
      SentCons(env, ch.router.sent, batch, fl.result, fl.channel.router.sent, []);
    }
  }



}
