/**
 * `biogrid2-generate-vertices-edges.js`: the same numbering of protein names
 * as the first converter, but each new name also gets a vertex record (its
 * number's decimal text, its interactor type, its name), kept both in
 * `verticesJSON` and, in number order, in `arrVerticesNeo4jJSON`.
 */
module Biogrid2 {
  import opened Interning
  import Decimal
  import Biogrid

  /** One record of the input: the two protein names, their interactor types, and the detection method. */
  datatype Record = Record(source: string, destination: string, iteractor1: string, iteractor2: string, detection: string)

  /** A vertex record: `id` is the decimal text of the number. */
  datatype Vertex = Vertex(id: string, vertexLabel: string, name: string)

  /** The script's variables: the name table, the two counters, `verticesJSON`, `arrVerticesNeo4jJSON` and `arrEdgesJSON`. */
  datatype State = State(h: map<string, nat>, currentVertex: nat, currentEdge: nat,
                         vertices: map<string, Vertex>, arr: seq<Vertex>, edges: seq<Biogrid.Edge>)

  /** Both counters start at 1; every table is empty. */
  const Start: State := State(map[], 1, 1, map[], [], [])

  /** The endpoints of the records, as name pairs. */
  function Ends(recs: seq<Record>): (ends: seq<(string, string)>)
    ensures |ends| == |recs|
    ensures forall i :: 0 <= i < |recs| ==> ends[i] == (recs[i].source, recs[i].destination)
  {
    seq(|recs|, i requires 0 <= i < |recs| => (recs[i].source, recs[i].destination))
  }

  /** The vertex record a new name gets: the number as text, the given type as label, and the name. */
  function NewVertex(id: nat, vertexLabel: string, name: string): Vertex {
    Vertex(Decimal.NatToDecimal(id), vertexLabel, name)
  }

  /** The state after looking one name up, and the name's number. */
  datatype Half = Half(st: State, id: nat)

  /**
   * One of the two lookup blocks of the loop body: reuse the name's number, or
   * give it the next one and store a new vertex record, labelled `l`, in both
   * vertex tables.
   */
  function AddVertex(st: State, n: string, l: string): (r: Half)
    ensures n in r.st.h && r.st.h[n] == r.id
    ensures forall m :: m in st.h ==> m in r.st.h && r.st.h[m] == st.h[m]
    ensures |st.arr| <= |r.st.arr| && r.st.arr[..|st.arr|] == st.arr
    ensures r.st.currentEdge == st.currentEdge && r.st.edges == st.edges
    ensures n in st.h ==> r.st == st
  {
    var t := Intern(st.h, st.currentVertex, n);
    if t.isNew then
      var v := NewVertex(t.id, l, n);
      Half(st.(h := t.h, currentVertex := t.current, vertices := st.vertices[v.id := v], arr := st.arr + [v]), t.id)
    else Half(st, t.id)
  }

  /**
   * The body of the `forEach`: look up the source, then the destination; a new
   * source gets a vertex labelled `iteractor1`, a new destination one labelled
   * `iteractor2`; then append the edge, labelled with the detection method.
   */
  function Visit(st: State, rec: Record): (st': State)
    ensures st'.currentEdge == st.currentEdge + 1
    ensures rec.source in st'.h && rec.destination in st'.h
    ensures |st'.edges| == |st.edges| + 1 && st'.edges[..|st.edges|] == st.edges
    ensures st'.edges[|st.edges|] == Biogrid.Edge(st'.h[rec.source], st'.h[rec.destination], rec.detection)
    ensures forall m :: m in st.h ==> m in st'.h && st'.h[m] == st.h[m]
    ensures |st.arr| <= |st'.arr| && st'.arr[..|st.arr|] == st.arr
    ensures rec.source in st.h && rec.destination in st.h ==>
              st'.h == st.h && st'.currentVertex == st.currentVertex && st'.vertices == st.vertices && st'.arr == st.arr
  {
    var s := AddVertex(st, rec.source, rec.iteractor1);
    var d := AddVertex(s.st, rec.destination, rec.iteractor2);
    d.st.(currentEdge := st.currentEdge + 1, edges := st.edges + [Biogrid.Edge(s.id, d.id, rec.detection)])
  }

  /** `biogrid.forEach(...)` over the whole input. */
  function Convert(recs: seq<Record>): State
    decreases |recs|
  {
    if recs == [] then Start else Visit(Convert(recs[..|recs| - 1]), recs[|recs| - 1])
  }

  /**
   * The reference for a name's label: the interactor type next to the name in
   * the first record, read from the front, that mentions it.
   */
  function FirstLabel(recs: seq<Record>, n: string): string
    decreases |recs|
  {
    if recs == [] then ""
    else if recs[0].source == n then recs[0].iteractor1
    else if recs[0].destination == n then recs[0].iteractor2
    else FirstLabel(recs[1..], n)
  }

  /** A later record does not change the label of a name an earlier record already mentioned. */
  lemma {:induction false} FirstLabelKept(recs: seq<Record>, rec: Record, n: string)
    requires Mentions(Ends(recs), n)
    ensures FirstLabel(recs + [rec], n) == FirstLabel(recs, n)
    decreases |recs|
  {
    var i :| 0 <= i < |recs| && (Ends(recs)[i].0 == n || Ends(recs)[i].1 == n);
    assert (recs + [rec])[0] == recs[0];
    if recs[0].source != n && recs[0].destination != n {
      assert i > 0;
      var tail := recs[1..];
      assert Ends(tail)[i - 1] == Ends(recs)[i];
      FirstLabelKept(tail, rec, n);
      assert (recs + [rec])[1..] == tail + [rec];
    }
  }

  /** What the records after the first mention, the whole list mentions. */
  lemma MentionsTail(recs: seq<Record>, n: string)
    requires recs != []
    ensures Mentions(Ends(recs[1..]), n) ==> Mentions(Ends(recs), n)
  {
    if Mentions(Ends(recs[1..]), n) {
      var i :| 0 <= i < |recs[1..]| && (Ends(recs[1..])[i].0 == n || Ends(recs[1..])[i].1 == n);
      assert Ends(recs)[i + 1] == Ends(recs[1..])[i];
    }
  }

  /** A name no earlier record mentioned takes its label from the record that brings it. */
  lemma {:induction false} FirstLabelNew(recs: seq<Record>, rec: Record, n: string)
    requires !Mentions(Ends(recs), n) && (rec.source == n || rec.destination == n)
    ensures FirstLabel(recs + [rec], n) == if rec.source == n then rec.iteractor1 else rec.iteractor2
    decreases |recs|
  {
    if recs != [] {
      assert (recs + [rec])[0] == recs[0];
      assert Ends(recs)[0] == (recs[0].source, recs[0].destination);
      var tail := recs[1..];
      MentionsTail(recs, n);
      FirstLabelNew(tail, rec, n);
      assert (recs + [rec])[1..] == tail + [rec];
    }
  }

  /** The name table numbers the names of `recs` by first appearance. */
  ghost predicate TableBuilt(st: State, recs: seq<Record>) {
    Interns(st.h, st.currentVertex, OrderOf(Ends(recs)))
  }

  /** `arr` holds one vertex per name of `order`, in order, each labelled as its first record in `recs` says. */
  ghost predicate ArrayMatches(arr: seq<Vertex>, order: seq<string>, recs: seq<Record>) {
    && |arr| == |order|
    && forall k {:trigger arr[k]} :: 0 <= k < |arr| ==> arr[k] == NewVertex(k + 1, FirstLabel(recs, order[k]), order[k])
  }

  /** `arrVerticesNeo4jJSON` holds one vertex per name, in number order, each labelled as the name's first record says. */
  ghost predicate ArrayBuilt(st: State, recs: seq<Record>) {
    ArrayMatches(st.arr, OrderOf(Ends(recs)), recs)
  }

  /** `verticesJSON` holds the same records, keyed by the decimal text of their number. */
  ghost predicate VerticesBuilt(st: State) {
    Numbered(st.vertices, st.arr)
  }

  /** The edge counter is one past the number of records, and there is one edge per record between the numbers of its names. */
  ghost predicate EdgesBuilt(st: State, recs: seq<Record>) {
    && st.currentEdge == |recs| + 1
    && |st.edges| == |recs|
    && (forall i :: 0 <= i < |recs| ==>
          recs[i].source in st.h && recs[i].destination in st.h &&
          st.edges[i] == Biogrid.Edge(st.h[recs[i].source], st.h[recs[i].destination], recs[i].detection))
  }

  /** What the pass has built after `recs`. */
  ghost predicate Converted(st: State, recs: seq<Record>) {
    TableBuilt(st, recs) && ArrayBuilt(st, recs) && VerticesBuilt(st) && EdgesBuilt(st, recs)
  }

  /** The endpoints of one more record are one more pair. */
  lemma EndsSnoc(recs: seq<Record>, rec: Record)
    ensures Ends(recs + [rec]) == Ends(recs) + [(rec.source, rec.destination)]
  {
  }

  /** One lookup keeps the table numbering the names of `order`, extended by the name. */
  lemma AddVertexKeepsTable(st: State, n: string, l: string, order: seq<string>)
    requires Interns(st.h, st.currentVertex, order)
    ensures var r := AddVertex(st, n, l);
            Interns(r.st.h, r.st.currentVertex, AddName(order, n))
  {
    InternKeeps(st.h, st.currentVertex, order, n);
  }

  /** One lookup keeps `arrVerticesNeo4jJSON` in step with the order, provided a new name's label is `l`. */
  lemma AddVertexKeepsArray(st: State, n: string, l: string, order: seq<string>, recs: seq<Record>)
    requires Interns(st.h, st.currentVertex, order) && ArrayMatches(st.arr, order, recs)
    requires n !in order ==> FirstLabel(recs, n) == l
    ensures ArrayMatches(AddVertex(st, n, l).st.arr, AddName(order, n), recs)
  {
    var t := Intern(st.h, st.currentVertex, n);
    if t.isNew {
      assert n !in order;
      var arr' := st.arr + [NewVertex(t.id, l, n)];
      var order' := order + [n];
      forall k | 0 <= k < |arr'|
        ensures arr'[k] == NewVertex(k + 1, FirstLabel(recs, order'[k]), order'[k])
      {
        if k < |st.arr| {
          assert arr'[k] == st.arr[k] && order'[k] == order[k];
        }
      }
    } else {
      assert n in order;
    }
  }

  /** One lookup keeps `verticesJSON` holding the records of the array under their number's text. */
  lemma AddVertexKeepsObject(st: State, n: string, l: string, order: seq<string>)
    requires Interns(st.h, st.currentVertex, order) && |st.arr| == |order| && Numbered(st.vertices, st.arr)
    ensures var r := AddVertex(st, n, l);
            Numbered(r.st.vertices, r.st.arr) && |r.st.arr| == |AddName(order, n)|
  {
    var t := Intern(st.h, st.currentVertex, n);
    if t.isNew {
      NumberedAdd(st.vertices, st.arr, NewVertex(t.id, l, n));
    }
  }

  /** Some earlier record mentions every name of the array, so one more record does not change their labels. */
  lemma LabelsKept(arr: seq<Vertex>, recs: seq<Record>, rec: Record)
    requires ArrayMatches(arr, OrderOf(Ends(recs)), recs)
    ensures ArrayMatches(arr, OrderOf(Ends(recs)), recs + [rec])
  {
    var order := OrderOf(Ends(recs));
    forall k | 0 <= k < |arr|
      ensures arr[k] == NewVertex(k + 1, FirstLabel(recs + [rec], order[k]), order[k])
    {
      OrderOfMembers(Ends(recs), order[k]);
      FirstLabelKept(recs, rec, order[k]);
    }
  }

  /** One more record keeps the table numbering names by first appearance. */
  lemma VisitKeepsTable(st: State, recs: seq<Record>, rec: Record)
    requires TableBuilt(st, recs)
    ensures TableBuilt(Visit(st, rec), recs + [rec])
  {
    var order := OrderOf(Ends(recs));
    AddVertexKeepsTable(st, rec.source, rec.iteractor1, order);
    var s := AddVertex(st, rec.source, rec.iteractor1);
    AddVertexKeepsTable(s.st, rec.destination, rec.iteractor2, AddName(order, rec.source));
    EndsSnoc(recs, rec);
    OrderOfSnoc(Ends(recs), (rec.source, rec.destination));
  }

  /** One more record keeps `arrVerticesNeo4jJSON` listing the names in number order with their first labels. */
  lemma VisitKeepsArray(st: State, recs: seq<Record>, rec: Record)
    requires TableBuilt(st, recs) && ArrayBuilt(st, recs)
    ensures ArrayBuilt(Visit(st, rec), recs + [rec])
  {
    var recs' := recs + [rec];
    var order := OrderOf(Ends(recs));
    var order1 := AddName(order, rec.source);
    LabelsKept(st.arr, recs, rec);
    if rec.source !in order {
      OrderOfMembers(Ends(recs), rec.source);
      FirstLabelNew(recs, rec, rec.source);
    }
    AddVertexKeepsArray(st, rec.source, rec.iteractor1, order, recs');
    AddVertexKeepsTable(st, rec.source, rec.iteractor1, order);
    var s := AddVertex(st, rec.source, rec.iteractor1);
    if rec.destination !in order1 {
      OrderOfMembers(Ends(recs), rec.destination);
      FirstLabelNew(recs, rec, rec.destination);
    }
    AddVertexKeepsArray(s.st, rec.destination, rec.iteractor2, order1, recs');
    EndsSnoc(recs, rec);
    OrderOfSnoc(Ends(recs), (rec.source, rec.destination));
  }

  /** One more record keeps `verticesJSON` holding the array's records under their number's text. */
  lemma VisitKeepsObject(st: State, recs: seq<Record>, rec: Record)
    requires TableBuilt(st, recs) && |st.arr| == |OrderOf(Ends(recs))| && VerticesBuilt(st)
    ensures VerticesBuilt(Visit(st, rec))
  {
    var order := OrderOf(Ends(recs));
    AddVertexKeepsObject(st, rec.source, rec.iteractor1, order);
    AddVertexKeepsTable(st, rec.source, rec.iteractor1, order);
    var s := AddVertex(st, rec.source, rec.iteractor1);
    AddVertexKeepsObject(s.st, rec.destination, rec.iteractor2, AddName(order, rec.source));
  }

  /** One more record appends its edge; the earlier edges keep their endpoints, since numbers never change. */
  lemma VisitKeepsEdges(st: State, recs: seq<Record>, rec: Record)
    requires EdgesBuilt(st, recs)
    ensures EdgesBuilt(Visit(st, rec), recs + [rec])
  {
    var st' := Visit(st, rec);
    var recs' := recs + [rec];
    forall i | 0 <= i < |recs'|
      ensures recs'[i].source in st'.h && recs'[i].destination in st'.h &&
              st'.edges[i] == Biogrid.Edge(st'.h[recs'[i].source], st'.h[recs'[i].destination], recs'[i].detection)
    {
      if i < |recs| {
        assert recs'[i] == recs[i] && st'.edges[i] == st.edges[i];
      }
    }
  }

  /** One more record keeps the pass's invariant. */
  lemma VisitKeeps(st: State, recs: seq<Record>, rec: Record, recs': seq<Record>)
    requires Converted(st, recs) && recs' == recs + [rec]
    ensures Converted(Visit(st, rec), recs')
  {
    VisitKeepsTable(st, recs, rec);
    VisitKeepsArray(st, recs, rec);
    VisitKeepsObject(st, recs, rec);
    VisitKeepsEdges(st, recs, rec);
  }

  /** The invariant holds after the whole input. */
  lemma {:induction false} ConvertCorrect(recs: seq<Record>)
    ensures Converted(Convert(recs), recs)
    decreases |recs|
  {
    if recs == [] {
      StartInterns();
    } else {
      var init := recs[..|recs| - 1];
      ConvertCorrect(init);
      SplitLast(recs);
      VisitKeeps(Convert(init), init, recs[|recs| - 1], recs);
    }
  }

  /** The table part of the invariant after the whole input. */
  lemma ConvertTable(recs: seq<Record>)
    ensures TableBuilt(Convert(recs), recs)
  {
    ConvertCorrect(recs);
  }

  /** The table and array parts of the invariant after the whole input. */
  lemma ConvertArray(recs: seq<Record>)
    ensures TableBuilt(Convert(recs), recs) && ArrayBuilt(Convert(recs), recs)
  {
    ConvertCorrect(recs);
  }

  /** The array and object parts of the invariant after the whole input. */
  lemma ConvertObject(recs: seq<Record>)
    ensures ArrayBuilt(Convert(recs), recs) && VerticesBuilt(Convert(recs))
  {
    ConvertCorrect(recs);
  }

  /**
   * Numbering as in the first converter: the names in order of first appearance
   * are numbered 1, 2, 3, ...; the table holds exactly the names of the input;
   * different names have different numbers.
   */
  lemma NumberingByFirstAppearance(recs: seq<Record>)
    ensures var st := Convert(recs);
            var order := OrderOf(Ends(recs));
            && Distinct(order)
            && (forall i :: 0 <= i < |order| ==> order[i] in st.h && st.h[order[i]] == i + 1)
            && (forall n :: n in st.h <==> Mentions(Ends(recs), n))
            && (forall a, b :: a in st.h && b in st.h && a != b ==> st.h[a] != st.h[b])
  {
    var st := Convert(recs);
    ConvertTable(recs);
    InternsNumbering(st.h, st.currentVertex, OrderOf(Ends(recs)));
    Biogrid.TableHoldsMentioned(st.h, st.currentVertex, Ends(recs));
  }

  /** A table and an array built from the same order agree: the vertex at a name's number carries that number, its first label and the name. */
  lemma ArrayByNumber(h: map<string, nat>, current: nat, arr: seq<Vertex>, order: seq<string>, recs: seq<Record>)
    requires Interns(h, current, order) && ArrayMatches(arr, order, recs)
    ensures |arr| == |h| == current - 1
    ensures forall n :: n in h ==> 1 <= h[n] <= |arr| && arr[h[n] - 1] == Vertex(Decimal.NatToDecimal(h[n]), FirstLabel(recs, n), n)
  {
    InternsNumbering(h, current, order);
    forall n | n in h
      ensures 1 <= h[n] <= |arr| && arr[h[n] - 1] == Vertex(Decimal.NatToDecimal(h[n]), FirstLabel(recs, n), n)
    {
      assert order[h[n] - 1] == n;
    }
  }

  /** An object numbering the array's records holds each record under its own `id`. */
  lemma ObjectById(obj: map<string, Vertex>, arr: seq<Vertex>, order: seq<string>, recs: seq<Record>)
    requires Numbered(obj, arr) && ArrayMatches(arr, order, recs)
    ensures forall k :: 0 <= k < |arr| ==> arr[k].id in obj && obj[arr[k].id] == arr[k]
  {
    forall k | 0 <= k < |arr|
      ensures arr[k].id in obj && obj[arr[k].id] == arr[k]
    {
      assert arr[k].id == Decimal.NatToDecimal(k + 1);
    }
  }

  /**
   * The vertex of a name is numbered as the table says, carries that number's
   * decimal text and the name, and is labelled with the name's interactor type
   * in the first record that mentions it; `arrVerticesNeo4jJSON` lists one vertex
   * per name, in number order, and `verticesJSON` holds the same records under
   * their `id`.
   */
  lemma VertexRecords(recs: seq<Record>)
    ensures var st := Convert(recs);
            && |st.arr| == |st.h| == st.currentVertex - 1
            && (forall n :: n in st.h ==> 1 <= st.h[n] <= |st.arr| && st.arr[st.h[n] - 1] == Vertex(Decimal.NatToDecimal(st.h[n]), FirstLabel(recs, n), n))
            && (forall k :: 0 <= k < |st.arr| ==> st.arr[k].id in st.vertices && st.vertices[st.arr[k].id] == st.arr[k])
  {
    var st := Convert(recs);
    ConvertArray(recs);
    ArrayByNumber(st.h, st.currentVertex, st.arr, OrderOf(Ends(recs)), recs);
    ConvertObject(recs);
    ObjectById(st.vertices, st.arr, OrderOf(Ends(recs)), recs);
  }

  /** One edge per record, in input order, between the numbers of the record's two names, labelled with its detection method. */
  lemma EdgesFollowRecords(recs: seq<Record>)
    ensures var st := Convert(recs);
            && |st.edges| == |recs|
            && forall i :: 0 <= i < |recs| ==>
                 recs[i].source in st.h && recs[i].destination in st.h &&
                 st.edges[i] == Biogrid.Edge(st.h[recs[i].source], st.h[recs[i].destination], recs[i].detection)
  {
    ConvertCorrect(recs);
  }

  /** The logged totals are one past the counts, as in the first converter. */
  lemma CountersOverstateByOne(recs: seq<Record>)
    ensures var st := Convert(recs);
            && st.currentVertex == |st.arr| + 1
            && st.currentEdge == |recs| + 1
  {
    ConvertCorrect(recs);
  }
}
