/**
 * `biogrid-generate-vertices-edges.js`: one pass over the interaction records
 * that numbers every protein name by first appearance and emits one edge per
 * record between the numbers of its two names.
 */
module Biogrid {
  import opened Interning
  import Decimal

  /** One record of the input: the two protein names and the interaction type. */
  datatype Interaction = Interaction(source: string, destination: string, interaction: string)

  /** One entry of `arrEdgesJSON`. */
  datatype Edge = Edge(source: nat, destination: nat, edgeLabel: string)

  /**
   * The script's variables: the name table `h`, the two counters, `verticesJSON`
   * (each vertex stored as its label, keyed by the decimal text of its number)
   * and `arrEdgesJSON`.
   */
  datatype State = State(h: map<string, nat>, currentVertex: nat, currentEdge: nat,
                         vertices: map<string, string>, edges: seq<Edge>)

  /** Both counters start at 1; every table is empty. */
  const Start: State := State(map[], 1, 1, map[], [])

  /** The endpoints of the records, as name pairs. */
  function Ends(recs: seq<Interaction>): (ends: seq<(string, string)>)
    ensures |ends| == |recs|
    ensures forall i :: 0 <= i < |recs| ==> ends[i] == (recs[i].source, recs[i].destination)
  {
    seq(|recs|, i requires 0 <= i < |recs| => (recs[i].source, recs[i].destination))
  }

  /**
   * The body of the `forEach`: look up the source, then the destination, each
   * new name getting the next number and a vertex labelled with the name; then
   * append the edge.
   */
  function Visit(st: State, rec: Interaction): (st': State)
    ensures st'.currentEdge == st.currentEdge + 1
    ensures rec.source in st'.h && rec.destination in st'.h
    ensures |st'.edges| == |st.edges| + 1 && st'.edges[..|st.edges|] == st.edges
    ensures st'.edges[|st.edges|] == Edge(st'.h[rec.source], st'.h[rec.destination], rec.interaction)
    ensures forall m :: m in st.h ==> m in st'.h && st'.h[m] == st.h[m]
    ensures rec.source in st.h && rec.destination in st.h ==>
              st'.h == st.h && st'.currentVertex == st.currentVertex && st'.vertices == st.vertices
  {
    var s := Intern(st.h, st.currentVertex, rec.source);
    var vs := if s.isNew then st.vertices[Decimal.NatToDecimal(s.id) := rec.source] else st.vertices;
    var d := Intern(s.h, s.current, rec.destination);
    var vd := if d.isNew then vs[Decimal.NatToDecimal(d.id) := rec.destination] else vs;
    State(d.h, d.current, st.currentEdge + 1, vd, st.edges + [Edge(s.id, d.id, rec.interaction)])
  }

  /** `biogrid.forEach(...)` over the whole input. */
  function Convert(recs: seq<Interaction>): State
    decreases |recs|
  {
    if recs == [] then Start else Visit(Convert(recs[..|recs| - 1]), recs[|recs| - 1])
  }

  /** The endpoints of one more record are one more pair. */
  lemma EndsSnoc(recs: seq<Interaction>, rec: Interaction)
    ensures Ends(recs + [rec]) == Ends(recs) + [(rec.source, rec.destination)]
  {
  }

  /** The table numbers the names of `recs` by first appearance. */
  ghost predicate TableBuilt(st: State, recs: seq<Interaction>) {
    Interns(st.h, st.currentVertex, OrderOf(Ends(recs)))
  }

  /** `verticesJSON` labels each number with the name it was given to. */
  ghost predicate VerticesBuilt(st: State, recs: seq<Interaction>) {
    Numbered(st.vertices, OrderOf(Ends(recs)))
  }

  /** The edge counter is one past the number of records, and there is one edge per record between the numbers of its names. */
  ghost predicate EdgesBuilt(st: State, recs: seq<Interaction>) {
    && st.currentEdge == |recs| + 1
    && |st.edges| == |recs|
    && (forall i :: 0 <= i < |recs| ==>
          recs[i].source in st.h && recs[i].destination in st.h &&
          st.edges[i] == Edge(st.h[recs[i].source], st.h[recs[i].destination], recs[i].interaction))
  }

  /** What the pass has built after `recs`. */
  ghost predicate Converted(st: State, recs: seq<Interaction>) {
    TableBuilt(st, recs) && VerticesBuilt(st, recs) && EdgesBuilt(st, recs)
  }

  /** One more record keeps the table numbering names by first appearance. */
  lemma VisitKeepsNames(st: State, recs: seq<Interaction>, rec: Interaction)
    requires TableBuilt(st, recs)
    ensures TableBuilt(Visit(st, rec), recs + [rec])
  {
    var order := OrderOf(Ends(recs));
    var s := Intern(st.h, st.currentVertex, rec.source);
    InternKeeps(st.h, st.currentVertex, order, rec.source);
    InternKeeps(s.h, s.current, AddName(order, rec.source), rec.destination);
    EndsSnoc(recs, rec);
    OrderOfSnoc(Ends(recs), (rec.source, rec.destination));
  }

  /** One more record keeps the vertices labelled with their names. */
  lemma VisitKeepsVertices(st: State, recs: seq<Interaction>, rec: Interaction)
    requires TableBuilt(st, recs) && VerticesBuilt(st, recs)
    ensures VerticesBuilt(Visit(st, rec), recs + [rec])
  {
    var order := OrderOf(Ends(recs));
    var s := Intern(st.h, st.currentVertex, rec.source);
    var vs := if s.isNew then st.vertices[Decimal.NatToDecimal(s.id) := rec.source] else st.vertices;
    var order1 := AddName(order, rec.source);
    InternKeeps(st.h, st.currentVertex, order, rec.source);
    if s.isNew {
      NumberedAdd(st.vertices, order, rec.source);
    }
    InternKeeps(s.h, s.current, order1, rec.destination);
    var d := Intern(s.h, s.current, rec.destination);
    if d.isNew {
      NumberedAdd(vs, order1, rec.destination);
    }
    EndsSnoc(recs, rec);
    OrderOfSnoc(Ends(recs), (rec.source, rec.destination));
  }

  /** One more record appends its edge; the earlier edges keep their endpoints, since numbers never change. */
  lemma VisitKeepsEdges(st: State, recs: seq<Interaction>, rec: Interaction)
    requires EdgesBuilt(st, recs)
    ensures EdgesBuilt(Visit(st, rec), recs + [rec])
  {
    var st' := Visit(st, rec);
    var recs' := recs + [rec];
    forall i | 0 <= i < |recs'|
      ensures recs'[i].source in st'.h && recs'[i].destination in st'.h &&
              st'.edges[i] == Edge(st'.h[recs'[i].source], st'.h[recs'[i].destination], recs'[i].interaction)
    {
      if i < |recs| {
        assert recs'[i] == recs[i] && st'.edges[i] == st.edges[i];
      }
    }
  }

  /** One more record keeps the pass's invariant. */
  lemma VisitKeeps(st: State, recs: seq<Interaction>, rec: Interaction, recs': seq<Interaction>)
    requires Converted(st, recs) && recs' == recs + [rec]
    ensures Converted(Visit(st, rec), recs')
  {
    VisitKeepsNames(st, recs, rec);
    VisitKeepsVertices(st, recs, rec);
    VisitKeepsEdges(st, recs, rec);
  }

  /** The invariant holds after the whole input. */
  lemma {:induction false} ConvertCorrect(recs: seq<Interaction>)
    ensures Converted(Convert(recs), recs)
    decreases |recs|
  {
    if recs == [] {
      StartInterns();
    } else {
      var init := recs[..|recs| - 1];
      ConvertCorrect(init);
      SplitLast(recs);
      VisitKeeps(Convert(init), init, recs[|recs| - 1], recs);
    }
  }

  /** The table part of the invariant after the whole input. */
  lemma ConvertTable(recs: seq<Interaction>)
    ensures TableBuilt(Convert(recs), recs)
  {
    ConvertCorrect(recs);
  }

  /**
   * Every name of the input gets exactly one number: the names in order of first
   * appearance (source before destination) are numbered 1, 2, 3, ...; the table
   * holds no other name; different names have different numbers.
   */
  lemma NumberingByFirstAppearance(recs: seq<Interaction>)
    ensures var st := Convert(recs);
            var order := OrderOf(Ends(recs));
            && Distinct(order)
            && (forall i :: 0 <= i < |order| ==> order[i] in st.h && st.h[order[i]] == i + 1)
            && (forall n :: n in st.h <==> Mentions(Ends(recs), n))
            && (forall a, b :: a in st.h && b in st.h && a != b ==> st.h[a] != st.h[b])
  {
    var st := Convert(recs);
    var order := OrderOf(Ends(recs));
    ConvertTable(recs);
    InternsNumbering(st.h, st.currentVertex, order);
    TableHoldsMentioned(st.h, st.currentVertex, Ends(recs));
  }

  /** A table numbering the names of the pairs holds exactly the names some pair mentions. */
  lemma TableHoldsMentioned(h: map<string, nat>, current: nat, ends: seq<(string, string)>)
    requires Interns(h, current, OrderOf(ends))
    ensures forall n :: n in h <==> Mentions(ends, n)
  {
    forall n
      ensures n in h <==> Mentions(ends, n)
    {
      OrderOfMembers(ends, n);
    }
  }

  /** `verticesJSON` holds one vertex per name, under the decimal text of its number, labelled with the name. */
  lemma VerticesLabelled(recs: seq<Interaction>)
    ensures var st := Convert(recs);
            forall n :: n in st.h ==>
              Decimal.NatToDecimal(st.h[n]) in st.vertices && st.vertices[Decimal.NatToDecimal(st.h[n])] == n
  {
    var st := Convert(recs);
    ConvertCorrect(recs);
    assert TableBuilt(st, recs) && VerticesBuilt(st, recs);
    InternsNumbering(st.h, st.currentVertex, OrderOf(Ends(recs)));
  }

  /** One edge per record, in input order, between the numbers of the record's two names, labelled with its interaction. */
  lemma EdgesFollowRecords(recs: seq<Interaction>)
    ensures var st := Convert(recs);
            && |st.edges| == |recs|
            && forall i :: 0 <= i < |recs| ==>
                 recs[i].source in st.h && recs[i].destination in st.h &&
                 st.edges[i] == Edge(st.h[recs[i].source], st.h[recs[i].destination], recs[i].interaction)
  {
    ConvertCorrect(recs);
  }

  /**
   * The counters the script logs as totals are one past the counts: the number
   * of distinct names plus one, and the number of records plus one.
   */
  lemma CountersOverstateByOne(recs: seq<Interaction>)
    ensures var st := Convert(recs);
            && st.currentVertex == |st.h| + 1 == |OrderOf(Ends(recs))| + 1
            && st.currentEdge == |recs| + 1
  {
    ConvertCorrect(recs);
  }

  /** A record whose two names are equal creates at most one vertex, and its edge is a self-loop. */
  lemma SelfLoop(recs: seq<Interaction>, rec: Interaction)
    requires rec.source == rec.destination
    ensures var st := Convert(recs);
            var st' := Convert(recs + [rec]);
            && st'.currentVertex <= st.currentVertex + 1
            && |st'.edges| == |recs| + 1
            && st'.edges[|recs|].source == st'.edges[|recs|].destination
  {
    ConvertCorrect(recs);
    assert (recs + [rec])[..|recs|] == recs;
  }
}
