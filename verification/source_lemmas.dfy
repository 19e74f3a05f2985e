/**
 * What one call of `doProcess` does with the keys of one loaded edge file: the
 * drain lemmas instantiated with the pass the bulk scripts make (`Push`, then
 * `_bulk()`), starting from the whole key list.
 */
module SourceLemmas {
  import opened Wrappers
  import opened BulkOps
  import opened Router
  import opened DrainLoop
  import opened DrainLemmas

  /** The source settles as its last flush did; only a throw in the very first flush rejects it with the TypeError. */
  lemma SourceSettlesAsLastFlush(job: Job, ch: Channel, entries: seq<Entry>)
    ensures var run := ProcessSource(job, ch, entries);
            run.outcome == Settle(Last(run.attempts).result, |run.attempts| == 1)
  {
    var n := Min(BatchSize, |entries|);
    DrainOutcome(StepOf(job), ch, entries[..n], entries[n..], true);
  }

  /**
   * The keys are pushed in slices of at most `BatchSize`, all but the last one
   * full, none empty unless the file had no key; every flush but the last settled.
   */
  lemma SourceSlices(job: Job, ch: Channel, entries: seq<Entry>)
    ensures var run := ProcessSource(job, ch, entries);
            && (forall i :: 0 <= i < |run.attempts| ==> |run.attempts[i].batch| <= BatchSize)
            && (entries != [] ==> forall i :: 0 <= i < |run.attempts| ==> |run.attempts[i].batch| >= 1)
            && (forall i :: 0 <= i < |run.attempts| - 1 ==> |run.attempts[i].batch| == BatchSize)
            && (forall i :: 0 <= i < |run.attempts| - 1 ==> Settled(run.attempts[i].result))
  {
    var n := Min(BatchSize, |entries|);
    var run := ProcessSource(job, ch, entries);
    assert run == Drain(StepOf(job), ch, entries[..n], entries[n..], true);
    DrainSlices(StepOf(job), ch, entries[..n], entries[n..], true);
    DrainContinues(StepOf(job), ch, entries[..n], entries[n..], true);
    assert |run.attempts[0].batch| == n;
    if |run.attempts| > 1 {
      assert entries[n..] != [];
      assert n == BatchSize;
    }
  }

  /**
   * The pushed slices are, in order, a prefix of the keys; all of them when the
   * last flush settled. `current` grows by one per pushed key.
   */
  lemma SourceCovers(job: Job, ch: Channel, entries: seq<Entry>)
    ensures var run := ProcessSource(job, ch, entries);
            && Covered(run.attempts) <= entries
            && run.channel.current == ch.current + |Covered(run.attempts)|
            && (Settled(Last(run.attempts).result) ==>
                  Covered(run.attempts) == entries && run.channel.current == ch.current + |entries|)
  {
    var n := Min(BatchSize, |entries|);
    var step := StepOf(job);
    StepOfCounts(job);
    DrainCovers(step, ch, entries[..n], entries[n..], true);
    DrainCoversAll(step, ch, entries[..n], entries[n..], true);
    assert entries[..n] + entries[n..] == entries;
  }

  /** A source whose flushes all settle makes `ceil(N / BatchSize)` flushes for N keys, and one for an empty file. */
  lemma SourceFlushCount(job: Job, ch: Channel, entries: seq<Entry>)
    ensures var run := ProcessSource(job, ch, entries);
            Settled(Last(run.attempts).result) ==>
              |run.attempts| == (if entries == [] then 1 else CeilDiv(|entries|, BatchSize))
  {
    var n := Min(BatchSize, |entries|);
    DrainCount(StepOf(job), ch, entries[..n], entries[n..], true);
    if entries != [] {
      CeilStep(|entries|);
    }
  }

  /** An empty file with an empty buffer resolves at once: nothing is sent and nothing changes. */
  lemma EmptySource(job: Job, ch: Channel)
    requires ch.buffer == []
    ensures ProcessSource(job, ch, []) == DrainRun(SourceResolved, ch, [Attempt([], Resolved)])
  {
    var step := StepOf(job);
    StepIs(job, ch, []);
    assert Push(job, ch, []) == ch;
    UnfoldStop(step, ch, [], [], true);
  }

  /**
   * With an empty buffer, valid keys and a socket that answers `bulk1` to every
   * envelope, the source resolves with an empty buffer, every flush resolves,
   * and the envelopes written are, in order, one per slice, each carrying that
   * slice's wire array; the counter draws one number per flush.
   */
  lemma SourceAllAnswered(job: Job, ch: Channel, entries: seq<Entry>)
    requires ch.buffer == [] && entries != []
    requires AllValid(job, entries)
    requires Answers(ch, |entries|)
    ensures var run := ProcessSource(job, ch, entries);
            && run.outcome == SourceResolved
            && (forall i :: 0 <= i < |run.attempts| ==> run.attempts[i].result == Resolved)
            && run.channel.buffer == []
            && Covered(run.attempts) == entries
            && run.channel.router.counter == ch.router.counter + |run.attempts|
            && run.channel.router.sent == ch.router.sent + Envelopes(EnvelopeFor(job), run.attempts)
  {
    var n := Min(BatchSize, |entries|);
    var step := StepOf(job);
    var env := EnvelopeFor(job);
    assert entries[..n] + entries[n..] == entries;
    StepOfSends(job);
    AnswersFewer(ch, |entries|, 1 + |entries[n..]|);
    DrainAllAnswered(job, env, step, ch, entries[..n], entries[n..], true);
    DrainAnsweredSends(job, env, step, ch, entries[..n], entries[n..], true);
    DrainCoversAll(step, ch, entries[..n], entries[n..], true);
    DrainOutcome(step, ch, entries[..n], entries[n..], true);
    var run := ProcessSource(job, ch, entries);
    assert Last(run.attempts).result == Resolved by {
      assert Settle(Last(run.attempts).result, |run.attempts| == 1) == SourceResolved;
    }
  }

  /** Each sent envelope is the one for its slice: the `i`-th envelope carries the operations of the `i`-th slice. */
  lemma {:induction false} EnvelopesAt(env: Enveloper, attempts: seq<Attempt>)
    ensures |Envelopes(env, attempts)| == |attempts|
    ensures forall i :: 0 <= i < |attempts| ==> Envelopes(env, attempts)[i] == env(attempts[i].batch)
    decreases |attempts|
  {
    if attempts != [] {
      EnvelopesAt(env, attempts[1..]);
    }
  }

  /**
   * The envelope for a slice of valid keys carries one wire tuple per key, in
   * order: an index tuple whose id is the decimal text of the key's integer id
   * for a persist, a delete tuple for a destroy.
   */
  lemma EnvelopeCarriesSlice(job: Job, batch: seq<Entry>)
    requires AllValid(job, batch)
    ensures var e := EnvelopeOf(job, batch);
            var ops := SliceOps(IndexOf(job.flavor), job.op, job.parseInt, job.offset, batch);
            && e.callbackIndex == Token && e.action == "bulk" && e.index == IndexOf(job.flavor)
            && |e.operations| == |batch|
            && forall i :: 0 <= i < |batch| ==> e.operations[i..i + 1] == TupleOf(ops[i])
  {
    var ops := SliceOps(IndexOf(job.flavor), job.op, job.parseInt, job.offset, batch);
    SliceOpsAt(IndexOf(job.flavor), job.op, job.parseInt, job.offset, batch);
    BuildAllValid(ops);
  }

  /**
   * Twitter with an offset `parseInt` cannot read: every id is NaN, so when the
   * keys are persisted the first flush rejects, every later one does too, the
   * source rejects, and nothing is ever sent.
   */
  lemma TwitterNaNOffset(job: Job, ch: Channel, entries: seq<Entry>)
    requires job.flavor == Twitter && job.offset == OffNaN && job.op == "persist"
    requires entries != []
    ensures var run := ProcessSource(job, ch, entries);
            && run.outcome.SourceRejected?
            && (forall i :: 0 <= i < |run.attempts| ==> run.attempts[i].result.Rejected?)
            && run.channel.router == ch.router
  {
    var n := Min(BatchSize, |entries|);
    var batch := entries[..n];
    var index := IndexOf(job.flavor);
    SliceOpsAt(index, job.op, job.parseInt, job.offset, batch);
    var pushed := Push(job, ch, batch);
    assert pushed.buffer[|ch.buffer|] == EntryToOp(index, job.op, job.parseInt, job.offset, batch[0]);
    assert InvalidPersist(pushed.buffer[|ch.buffer|]);
    DrainPoisoned(job, ch, batch, entries[n..], true);
    DrainPoisonedKeepsBuffer(job, ch, batch, entries[n..], true);
  }

  /**
   * A resolved source pushed every key, counted every key into `current`, and
   * left the buffer empty for the next one.
   */
  lemma SourceResolvedAll(job: Job, ch: Channel, entries: seq<Entry>)
    ensures var run := ProcessSource(job, ch, entries);
            run.outcome == SourceResolved ==>
              && Covered(run.attempts) == entries
              && run.channel.current == ch.current + |entries|
              && run.channel.buffer == []
  {
    var n := Min(BatchSize, |entries|);
    var run := ProcessSource(job, ch, entries);
    SourceSettlesAsLastFlush(job, ch, entries);
    SourceCovers(job, ch, entries);
    StepOfEmpties(job);
    DrainResolvedEmpties(StepOf(job), ch, entries[..n], entries[n..], true);
  }
}
