/**
 * The operations of the bulk-ingestion scripts (pokec-graph-bulk-edges.js and
 * twitter-graph-populate-edges.js): how one key of a loaded edge file becomes a
 * buffered operation, and how `buildBulkOperations` turns the buffer into the
 * array of wire tuples sent to the socket server.
 */
module BulkOps {
  import opened Wrappers
  import Decimal

  /** The index (graph) name and document type the two scripts use. */
  const PokecIndex := "pokec"
  const TwitterIndex := "twitter"
  const TypeName := "e"
  /** Every edge is labelled "KNOWS". */
  const EdgeLabel := "KNOWS"
  /** The value of `strRequest`: operations are persists unless it is changed. */
  const StrRequest := "persist"

  /** `parseInt`, left abstract: the integer a string denotes, or None for NaN. */
  type ParseInt = string -> Option<int>

  /**
   * The value of `obj.id`: an integral JavaScript number, NaN, or the string that
   * `number + string` produces when the offset is a string.
   */
  datatype IdValue = IntId(n: int) | NaNId | TextId(text: string)

  /** `Number.isInteger(id)`. */
  predicate IsInteger(v: IdValue) {
    v.IntId?
  }

  /** `id.toString()`. */
  function IdText(v: IdValue): string {
    match v
    case IntId(n) => Decimal.IntToDecimal(n)
    case NaNId => "NaN"
    case TextId(t) => t
  }

  /** The value held by the script's `offset` variable while one source is processed. */
  datatype JsOffset = OffNumber(n: int) | OffNaN | OffText(text: string) | OffUndefined

  /**
   * `parseInt(vkey) + offset`, with JavaScript's `+` on a number and the offset;
   * the numeric sum is exact, as a double's is for safe integers.
   */
  function AddOffset(k: Option<int>, offset: JsOffset): (v: IdValue)
    ensures IsInteger(v) <==> k.Some? && offset.OffNumber?
    ensures IsInteger(v) ==> v.n == k.value + offset.n
  {
    match offset
    case OffNumber(b) => if k.Some? then IntId(k.value + b) else NaNId
    case OffNaN => NaNId
    case OffUndefined => NaNId
    case OffText(t) =>
      TextId((if k.Some? then Decimal.IntToDecimal(k.value) else "NaN") + t)
  }

  /** One key of a loaded edge file together with `edges[key]`. */
  datatype Entry = Entry(key: string, source: int, target: int)

  /** The object `v` built for one key; its `_prop` is always the empty object. */
  datatype EdgeObj = EdgeObj(id: IdValue, edgeLabel: string, source: int, target: int)

  /** The `payload` of one operation: graph (index) name, document type and object. */
  datatype Payload = Payload(graph: string, docType: string, obj: EdgeObj)

  /** The name an operation is pushed under; `buildBulkOperations` ignores any other name. */
  datatype OpName = ExPersist | ExDestroy | OtherOp(name: string)

  /** `{op: op, content: obj}` as `pushOperation` stores it. */
  datatype BufferedOp = BufferedOp(op: OpName, content: Payload)

  /** One entry of the `operations` array on the wire; the index body is `JSON.stringify(obj)`, kept as the object. */
  datatype WireTuple =
    | IndexTuple(docType: string, id: string, body: EdgeObj)
    | DeleteTuple(docType: string, id: string)

  /** The operation `insertDeleteVertices` pushes for one key. */
  function EntryToOp(index: string, op: string, parseInt: ParseInt, offset: JsOffset, e: Entry): (o: BufferedOp)
    ensures o.op == (if op == "persist" then ExPersist else ExDestroy)
    ensures o.content.graph == index && o.content.docType == TypeName
    ensures o.content.obj.edgeLabel == EdgeLabel
    ensures o.content.obj.source == e.source && o.content.obj.target == e.target
    ensures IsInteger(o.content.obj.id) <==> parseInt(e.key).Some? && offset.OffNumber?
    ensures IsInteger(o.content.obj.id) ==> o.content.obj.id.n == parseInt(e.key).value + offset.n
  {
    var v := EdgeObj(AddOffset(parseInt(e.key), offset), EdgeLabel, e.source, e.target);
    BufferedOp(if op == "persist" then ExPersist else ExDestroy, Payload(index, TypeName, v))
  }

  /** The operations pushed for a slice of keys, in order (one per key). */
  function SliceOps(index: string, op: string, parseInt: ParseInt, offset: JsOffset, batch: seq<Entry>): (ops: seq<BufferedOp>)
    ensures |ops| == |batch|
    decreases |batch|
  {
    if batch == [] then []
    else SliceOps(index, op, parseInt, offset, batch[..|batch| - 1]) + [EntryToOp(index, op, parseInt, offset, batch[|batch| - 1])]
  }

  /** An operation `buildBulkOperations` refuses: a persist whose id is not an integer. */
  predicate InvalidPersist(o: BufferedOp) {
    o.op == ExPersist && !IsInteger(o.content.obj.id)
  }

  /** The wire tuples one buffered operation contributes. */
  function TupleOf(o: BufferedOp): (t: seq<WireTuple>)
    ensures o.op.OtherOp? || InvalidPersist(o) <==> t == []
    ensures o.op == ExPersist && IsInteger(o.content.obj.id) ==>
      t == [IndexTuple(o.content.docType, Decimal.IntToDecimal(o.content.obj.id.n), o.content.obj)]
    ensures o.op == ExDestroy ==> t == [DeleteTuple(o.content.docType, IdText(o.content.obj.id))]
  {
    match o.op
    case ExPersist =>
      if IsInteger(o.content.obj.id) then [IndexTuple(o.content.docType, IdText(o.content.obj.id), o.content.obj)]
      else []
    case ExDestroy => [DeleteTuple(o.content.docType, IdText(o.content.obj.id))]
    case OtherOp(_) => []
  }

  /** What `buildBulkOperations` yields: the tuples, and the id of the last refused persist (each refusal overwrites the reported error). */
  datatype Built = Built(tuples: seq<WireTuple>, lastInvalid: Option<IdValue>)

  function BuildBulkOperations(ops: seq<BufferedOp>): (b: Built)
    ensures |b.tuples| <= |ops|
    decreases |ops|
  {
    if ops == [] then Built([], None)
    else
      var p := BuildBulkOperations(ops[..|ops| - 1]);
      var o := ops[|ops| - 1];
      Built(p.tuples + TupleOf(o), if InvalidPersist(o) then Some(o.content.obj.id) else p.lastInvalid)
  }

  /** Each key of a slice pushes exactly one operation, in the order of the keys. */
  lemma {:induction false} SliceOpsAt(index: string, op: string, parseInt: ParseInt, offset: JsOffset, batch: seq<Entry>)
    ensures forall i :: 0 <= i < |batch| ==>
      SliceOps(index, op, parseInt, offset, batch)[i] == EntryToOp(index, op, parseInt, offset, batch[i])
    decreases |batch|
  {
    if batch != [] {
      SliceOpsAt(index, op, parseInt, offset, batch[..|batch| - 1]);
    }
  }

  /** Pushing two slices one after the other pushes the operations of their concatenation. */
  lemma {:induction false} SliceOpsConcat(index: string, op: string, parseInt: ParseInt, offset: JsOffset, a: seq<Entry>, b: seq<Entry>)
    ensures SliceOps(index, op, parseInt, offset, a + b) == SliceOps(index, op, parseInt, offset, a) + SliceOps(index, op, parseInt, offset, b)
    decreases |b|
  {
    if b == [] {
      assert a + b == a;
    } else {
      var b' := b[..|b| - 1];
      assert (a + b)[..|a + b| - 1] == a + b';
      assert (a + b)[|a + b| - 1] == b[|b| - 1];
      SliceOpsConcat(index, op, parseInt, offset, a, b');
    }
  }

  /**
   * `buildBulkOperations` reports a refusal exactly when some persist has a
   * non-integer id, and the refusal names one such id (the last one).
   */
  lemma {:induction false} BuildRefusal(ops: seq<BufferedOp>)
    ensures BuildBulkOperations(ops).lastInvalid.None? <==> forall i :: 0 <= i < |ops| ==> !InvalidPersist(ops[i])
    ensures BuildBulkOperations(ops).lastInvalid.Some? ==>
      exists i :: 0 <= i < |ops| && InvalidPersist(ops[i]) && ops[i].content.obj.id == BuildBulkOperations(ops).lastInvalid.value
                  && forall j :: i < j < |ops| ==> !InvalidPersist(ops[j])
    decreases |ops|
  {
    if ops != [] {
      var p := ops[..|ops| - 1];
      BuildRefusal(p);
      assert forall i :: 0 <= i < |p| ==> p[i] == ops[i];
      var last := |ops| - 1;
      if InvalidPersist(ops[last]) {
        assert ops[last].content.obj.id == BuildBulkOperations(ops).lastInvalid.value;
      } else if BuildBulkOperations(p).lastInvalid.Some? {
        var i :| 0 <= i < |p| && InvalidPersist(p[i]) && p[i].content.obj.id == BuildBulkOperations(p).lastInvalid.value
                 && forall j :: i < j < |p| ==> !InvalidPersist(p[j]);
        assert forall j :: i < j < |ops| ==> !InvalidPersist(ops[j]);
      }
    }
  }

  /** The message a refused persist reports. */
  function InvalidIdMessage(id: IdValue): string {
    "All vertices and edges must have an integer id: [" + IdText(id) + "]"
  }

  /** The wire array of a concatenation is the concatenation of the wire arrays: order is preserved. */
  lemma {:induction false} BuildConcat(a: seq<BufferedOp>, b: seq<BufferedOp>)
    ensures BuildBulkOperations(a + b).tuples == BuildBulkOperations(a).tuples + BuildBulkOperations(b).tuples
    ensures BuildBulkOperations(a + b).lastInvalid ==
      (if BuildBulkOperations(b).lastInvalid.Some? then BuildBulkOperations(b).lastInvalid else BuildBulkOperations(a).lastInvalid)
    decreases |b|
  {
    if b == [] {
      assert a + b == a;
    } else {
      var b' := b[..|b| - 1];
      assert (a + b)[..|a + b| - 1] == a + b';
      assert (a + b)[|a + b| - 1] == b[|b| - 1];
      BuildConcat(a, b');
    }
  }

  /** A single operation builds exactly its own tuples. */
  lemma BuildSingle(o: BufferedOp)
    ensures BuildBulkOperations([o]).tuples == TupleOf(o)
  {
    assert [o][..0] == [];
  }

  /** Wire ids read back as the operations' integer ids. */
  lemma IndexIdRoundTrip(o: BufferedOp)
    requires o.op == ExPersist && IsInteger(o.content.obj.id)
    ensures TupleOf(o)[0].IndexTuple?
    ensures Decimal.ParseDecimal(TupleOf(o)[0].id) == Some(o.content.obj.id.n)
  {
    Decimal.RoundTrip(o.content.obj.id.n);
  }

  /** When every operation is a destroy or a persist with an integer id, each operation yields exactly one tuple, in order. */
  lemma {:induction false} BuildAllValid(ops: seq<BufferedOp>)
    requires forall i :: 0 <= i < |ops| ==> ops[i].op == ExDestroy || (ops[i].op == ExPersist && IsInteger(ops[i].content.obj.id))
    ensures |BuildBulkOperations(ops).tuples| == |ops|
    ensures BuildBulkOperations(ops).lastInvalid.None?
    ensures forall i :: 0 <= i < |ops| ==> BuildBulkOperations(ops).tuples[i..i + 1] == TupleOf(ops[i])
    decreases |ops|
  {
    if ops != [] {
      var p := ops[..|ops| - 1];
      BuildAllValid(p);
      var b := BuildBulkOperations(ops);
      var bp := BuildBulkOperations(p);
      assert b.tuples == bp.tuples + TupleOf(ops[|ops| - 1]);
      forall i | 0 <= i < |ops|
        ensures b.tuples[i..i + 1] == TupleOf(ops[i])
      {
        if i < |p| {
          assert b.tuples[i..i + 1] == bp.tuples[i..i + 1];
          assert ops[i] == p[i];
        }
      }
    }
  }
}
