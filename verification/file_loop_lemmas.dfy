/**
 * Properties of `doLoop`: the sources run in input order, each from the channel
 * the previous one left, the next only after the previous resolved; the loop's
 * status is the last source's outcome; `current` is never reset.
 */
module LoopLemmas {
  import opened Wrappers
  import opened BulkOps
  import opened Router
  import opened DrainLoop
  import opened SourceLemmas
  import opened FileLoop

  /** The channel the `i`-th source starts from: the initial one, or the one the previous source left. */
  function StartOf(ch: Channel, runs: seq<DrainRun>, i: nat): Channel
    requires i <= |runs|
  {
    if i == 0 then ch else runs[i - 1].channel
  }

  /** The loop as a whole, one step unfolded, for a resolved first source with inputs left. */
  lemma UnfoldLoop(process: Processor, ch: Channel, input: seq<Descriptor>)
    requires |input| > 1 && process(input[0], ch).outcome == SourceResolved
    ensures var rest := DoLoop(process, process(input[0], ch).channel, input[1..]);
            DoLoop(process, ch, input) == LoopRun(rest.status, rest.channel, [process(input[0], ch)] + rest.runs)
  {
  }

  /**
   * The `i`-th source processed is the `i`-th input, started from the channel the
   * previous source left; every source but the last resolved.
   */
  lemma {:induction false} LoopRunsInOrder(process: Processor, ch: Channel, input: seq<Descriptor>)
    ensures var l := DoLoop(process, ch, input);
            && (forall i :: 0 <= i < |l.runs| ==> l.runs[i] == process(input[i], StartOf(ch, l.runs, i)))
            && (forall i :: 0 <= i < |l.runs| - 1 ==> l.runs[i].outcome == SourceResolved)
    decreases |input|
  {
    var l := DoLoop(process, ch, input);
    if input != [] {
      var run := process(input[0], ch);
      if run.outcome == SourceResolved && |input| > 1 {
        var rest := DoLoop(process, run.channel, input[1..]);
        LoopRunsInOrder(process, run.channel, input[1..]);
        UnfoldLoop(process, ch, input);
        forall i | 0 <= i < |l.runs|
          ensures l.runs[i] == process(input[i], StartOf(ch, l.runs, i))
        {
          if i > 0 {
            assert l.runs[i] == rest.runs[i - 1];
            assert input[i] == input[1..][i - 1];
            assert StartOf(ch, l.runs, i) == StartOf(run.channel, rest.runs, i - 1);
          }
        }
        forall i | 0 <= i < |l.runs| - 1
          ensures l.runs[i].outcome == SourceResolved
        {
          if i > 0 {
            assert l.runs[i] == rest.runs[i - 1];
          }
        }
      }
    }
  }

  /**
   * The loop ends as its last source did: all done exactly when every input was
   * processed and the last resolved; halted with the error of a rejected source;
   * waiting on one that never settles; killed when a reply killed the process.
   */
  lemma {:induction false} LoopStatusIsLastOutcome(process: Processor, ch: Channel, input: seq<Descriptor>)
    requires input != []
    ensures var l := DoLoop(process, ch, input);
            var last := Last(l.runs).outcome;
            && l.channel == Last(l.runs).channel
            && (l.status == AllDone <==> |l.runs| == |input| && last == SourceResolved)
            && (l.status.Halted? <==> last.SourceRejected?)
            && (l.status.Halted? ==> l.status.error == last.error)
            && (l.status == Waiting <==> last == SourceHung)
            && (l.status == Killed <==> last == SourceCrashed)
    decreases |input|
  {
    var run := process(input[0], ch);
    if run.outcome == SourceResolved && |input| > 1 {
      var rest := DoLoop(process, run.channel, input[1..]);
      LoopStatusIsLastOutcome(process, run.channel, input[1..]);
      UnfoldLoop(process, ch, input);
      assert Last([run] + rest.runs) == Last(rest.runs);
    }
  }

  /** The bulk scripts' `doProcess` resolves cleanly. */
  lemma ProcessorResolvesCleanly(f: Flavor, op: string, parseInt: ParseInt, load: Loader)
    ensures ResolvesCleanly(ProcessorOf(f, op, parseInt, load), load)
  {
    var process := ProcessorOf(f, op, parseInt, load);
    forall d: Descriptor, c: Channel | process(d, c).outcome == SourceResolved
      ensures process(d, c).channel.buffer == [] && process(d, c).channel.current == c.current + |load(d.file)|
    {
      SourceResolvedAll(JobFor(f, op, parseInt, d), c, load(d.file));
    }
  }

  /** Every source after the first starts with an empty buffer: the previous one resolved, which empties it. */
  lemma {:induction false} LoopStartsEmpty(process: Processor, load: Loader, ch: Channel, input: seq<Descriptor>)
    requires ResolvesCleanly(process, load)
    ensures var l := DoLoop(process, ch, input);
            forall i :: 1 <= i < |l.runs| ==> StartOf(ch, l.runs, i).buffer == []
    decreases |input|
  {
    var l := DoLoop(process, ch, input);
    if input != [] {
      var run := process(input[0], ch);
      if run.outcome == SourceResolved && |input| > 1 {
        var rest := DoLoop(process, run.channel, input[1..]);
        LoopStartsEmpty(process, load, run.channel, input[1..]);
        UnfoldLoop(process, ch, input);
        forall i | 1 <= i < |l.runs|
          ensures StartOf(ch, l.runs, i).buffer == []
        {
          if i > 1 {
            assert StartOf(ch, l.runs, i) == StartOf(run.channel, rest.runs, i - 1);
          }
        }
      }
    }
  }

  /**
   * `current` is never reset between sources: when every input is processed it
   * has grown by the total number of keys of all the files.
   */
  lemma {:induction false} LoopCountsAllKeys(process: Processor, load: Loader, ch: Channel, input: seq<Descriptor>)
    requires ResolvesCleanly(process, load)
    ensures var l := DoLoop(process, ch, input);
            l.status == AllDone ==> l.channel.current == ch.current + TotalKeys(load, input)
    decreases |input|
  {
    if input != [] {
      var run := process(input[0], ch);
      if run.outcome == SourceResolved && |input| > 1 {
        LoopCountsAllKeys(process, load, run.channel, input[1..]);
        UnfoldLoop(process, ch, input);
      } else if run.outcome == SourceResolved {
        assert input[1..] == [];
      }
    }
  }

  /** The pokec input table: sixteen files whose offsets step by 2000000 from 0, so every key gets an integer id when `parseInt` reads it. */
  lemma PokecTable(parseInt: ParseInt, op: string)
    ensures |PokecInput| == 16
    ensures forall i :: 0 <= i < |PokecInput| ==> PokecInput[i].offset == RawNumber(2000000 * i)
    ensures forall i, e :: 0 <= i < |PokecInput| ==>
              (IsInteger(EntryToOp(PokecIndex, op, parseInt, JobFor(Pokec, op, parseInt, PokecInput[i]).offset, e).content.obj.id)
               <==> parseInt(e.key).Some?)
  {
  }

  /** Twitter: the offset is the number `parseInt` reads from the raw offset, or NaN, never a string. */
  lemma TwitterOffsetIsNumberOrNaN(parseInt: ParseInt, op: string, d: Descriptor, e: Entry)
    requires d.offset.RawText?
    ensures var o := JobFor(Twitter, op, parseInt, d).offset;
            && (o.OffNumber? <==> parseInt(d.offset.text).Some?)
            && (IsInteger(EntryToOp(TwitterIndex, op, parseInt, o, e).content.obj.id) <==>
                  parseInt(d.offset.text).Some? && parseInt(e.key).Some?)
  {
  }
}
