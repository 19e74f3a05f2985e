/**
 * `doProcess` and `doLoop` of the two bulk scripts: the input table of edge
 * files with their id offsets, how each script reads an offset, and the loop
 * that processes the files front first, starting the next one only once the
 * current one resolved.
 */
module FileLoop {
  import opened Wrappers
  import opened BulkOps
  import opened Router
  import opened DrainLoop
  import Decimal

  /** The `offset` of an input entry as written: a number, a string, or absent. */
  datatype RawOffset = RawNumber(n: int) | RawText(text: string) | RawUndefined

  /** One entry of `input`: the edge file `require`d and the offset added to its ids. */
  datatype Descriptor = Descriptor(file: string, offset: RawOffset)

  /** `require(data.file)`: the keys of the loaded edge object, in `Object.keys` order, with their endpoints. */
  type Loader = string -> seq<Entry>

  /** The pokec script's fixed input table: sixteen edge files, offsets 0, 2000000, ..., 30000000. */
  const PokecInput: seq<Descriptor> := [
    Descriptor("./data/edges-aa.json", RawNumber(0)),
    Descriptor("./data/edges-ab.json", RawNumber(2000000)),
    Descriptor("./data/edges-ac.json", RawNumber(4000000)),
    Descriptor("./data/edges-ad.json", RawNumber(6000000)),
    Descriptor("./data/edges-ae.json", RawNumber(8000000)),
    Descriptor("./data/edges-af.json", RawNumber(10000000)),
    Descriptor("./data/edges-ag.json", RawNumber(12000000)),
    Descriptor("./data/edges-ah.json", RawNumber(14000000)),
    Descriptor("./data/edges-ai.json", RawNumber(16000000)),
    Descriptor("./data/edges-aj.json", RawNumber(18000000)),
    Descriptor("./data/edges-ak.json", RawNumber(20000000)),
    Descriptor("./data/edges-al.json", RawNumber(22000000)),
    Descriptor("./data/edges-am.json", RawNumber(24000000)),
    Descriptor("./data/edges-an.json", RawNumber(26000000)),
    Descriptor("./data/edges-ao.json", RawNumber(28000000)),
    Descriptor("./data/edges-ap.json", RawNumber(30000000))
  ]

  /**
   * The value `offset` takes in `doProcess`: pokec stores `data.offset` as it is;
   * twitter stores `parseInt(data.offset)`, where a number is first turned to
   * its decimal text and an absent offset reads as NaN.
   */
  function ResolveOffset(f: Flavor, parseInt: ParseInt, raw: RawOffset): (o: JsOffset)
    ensures f == Pokec ==> o == (match raw
                                 case RawNumber(n) => OffNumber(n)
                                 case RawText(t) => OffText(t)
                                 case RawUndefined => OffUndefined)
    ensures f == Twitter ==> o.OffNumber? || o.OffNaN?
    ensures f == Twitter && raw.RawText? ==> (o.OffNumber? <==> parseInt(raw.text).Some?)
    ensures f == Twitter && raw.RawText? && o.OffNumber? ==> o.n == parseInt(raw.text).value
    ensures f == Twitter && raw.RawUndefined? ==> o == OffNaN
  {
    match f
    case Pokec =>
      (match raw
       case RawNumber(n) => OffNumber(n)
       case RawText(t) => OffText(t)
       case RawUndefined => OffUndefined)
    case Twitter =>
      match raw
      case RawUndefined => OffNaN
      case RawNumber(n) => ParsedOffset(parseInt(Decimal.IntToDecimal(n)))
      case RawText(t) => ParsedOffset(parseInt(t))
  }

  /** The number `parseInt` read, or NaN. */
  function ParsedOffset(k: Option<int>): JsOffset {
    match k
    case Some(n) => OffNumber(n)
    case None => OffNaN
  }

  /** The constants `doProcess` fixes for one input entry. */
  function JobFor(f: Flavor, op: string, parseInt: ParseInt, d: Descriptor): Job {
    Job(f, op, parseInt, ResolveOffset(f, parseInt, d.offset))
  }

  /**
   * How the file loop ends: every input processed; halted by a rejected source;
   * waiting forever on a source that never settles; killed by the `message`
   * handler; or killed at once because `input.shift()` gave `undefined`.
   */
  datatype LoopStatus = AllDone | Halted(error: Failure) | Waiting | Killed | NoInput

  /** The loop's status, the final channel, and one run per source started, in order. */
  datatype LoopRun = LoopRun(status: LoopStatus, channel: Channel, runs: seq<DrainRun>)

  /** `doProcess(data)` with the channel it starts from: how one input entry is processed. */
  type Processor = (Descriptor, Channel) -> DrainRun

  /** The bulk scripts' `doProcess`: load the file, fix the offset, and drain its keys. */
  function ProcessorOf(f: Flavor, op: string, parseInt: ParseInt, load: Loader): Processor {
    (d: Descriptor, c: Channel) => ProcessSource(JobFor(f, op, parseInt, d), c, load(d.file))
  }

  /** `doLoop()`: shift the first input, process it, and recurse on a resolved source while inputs remain. */
  function DoLoop(process: Processor, ch: Channel, input: seq<Descriptor>): (l: LoopRun)
    ensures input == [] <==> l.status == NoInput
    ensures input == [] ==> l.runs == [] && l.channel == ch
    ensures input != [] ==> 1 <= |l.runs| <= |input|
    decreases |input|
  {
    if input == [] then LoopRun(NoInput, ch, [])
    else
      var run := process(input[0], ch);
      match run.outcome
      case SourceResolved =>
        if |input| > 1 then
          var rest := DoLoop(process, run.channel, input[1..]);
          LoopRun(rest.status, rest.channel, [run] + rest.runs)
        else
          LoopRun(AllDone, run.channel, [run])
      case SourceRejected(e) => LoopRun(Halted(e), run.channel, [run])
      case SourceHung => LoopRun(Waiting, run.channel, [run])
      case SourceCrashed => LoopRun(Killed, run.channel, [run])
  }

  /** A resolved source leaves the buffer empty and has counted every key of its file into `current`. */
  ghost predicate ResolvesCleanly(process: Processor, load: Loader) {
    forall d: Descriptor, c: Channel :: process(d, c).outcome == SourceResolved ==>
      process(d, c).channel.buffer == [] && process(d, c).channel.current == c.current + |load(d.file)|
  }

  /** The number of keys of the loaded files, in total. */
  function TotalKeys(load: Loader, input: seq<Descriptor>): nat {
    if input == [] then 0 else |load(input[0].file)| + TotalKeys(load, input[1..])
  }
}
