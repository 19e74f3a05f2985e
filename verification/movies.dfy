/**
 * `movies-generate-vertices-edges.js`: the node files are read in turn, every
 * item becoming a vertex with the next number; fields whose name ends in `Id`
 * are indexed (`keys[field][value]` is the vertex number); then the
 * relationship files are read in turn, every item becoming an edge whose two
 * endpoints are looked up in that index.
 */
module Movies {
  import opened Wrappers
  import Components

  /** A JSON object read from a data file. */
  type Obj = map<string, Components.JsValue>

  /** One entry of `nodes`: a data file, the label of its vertices, and the field whose index the file starts afresh. */
  datatype NodeFile = NodeFile(file: string, vertexLabel: string, idField: string, items: seq<Obj>)

  /** The configuration part of an entry of `relationships`. */
  datatype Rel = Rel(edgeLabel: string, src: string, dst: string)

  /** One entry of `relationships`, with the items of its data file. */
  datatype RelFile = RelFile(file: string, rel: Rel, items: seq<Obj>)

  /** One entry of `edges`; `None` is an endpoint the index does not hold (`undefined`). */
  datatype Edge = Edge(source: Option<nat>, destination: Option<nat>, edgeLabel: string)

  /**
   * The script's variables. `vertices` and `edges` are objects keyed by the
   * decimal text of a number; the model keys them by the number itself, which
   * loses nothing since different numbers have different texts.
   */
  datatype State = State(currentVertex: nat, currentEdge: nat, vertices: map<nat, Obj>,
                         edges: map<nat, Edge>, keys: map<string, map<string, nat>>)

  /** Both counters start at 0; every object is empty. */
  const Start: State := State(0, 0, map[], map[], map[])

  /** The message of the `TypeError` thrown when an index that was never created is used. */
  const UndefinedIndex: string := "TypeError: index is undefined"

  /** The node files as configured: genres, films, directors. */
  function Nodes(genres: seq<Obj>, films: seq<Obj>, directors: seq<Obj>): seq<NodeFile> {
    [NodeFile("genres", "Genre", "genreId", genres),
     NodeFile("films", "Film", "filmId", films),
     NodeFile("directors", "Director", "directorId", directors)]
  }

  /** The relationship files as configured: director to film, film to genre. */
  function Relationships(directorfilm: seq<Obj>, filmgenre: seq<Obj>): seq<RelFile> {
    [RelFile("directorfilm", Rel("FILMS", "directorId", "filmId"), directorfilm),
     RelFile("filmgenre", Rel("GENRE", "filmId", "genreId"), filmgenre)]
  }

  /** `prop.endsWith("Id")`. */
  predicate EndsWithId(p: string) {
    |p| >= 2 && p[|p| - 2..] == "Id"
  }

  /** `item[f]`, `undefined` when the field is absent. */
  function Field(item: Obj, f: string): Components.JsValue {
    if f in item then item[f] else Components.Undefined
  }

  /**
   * A vertex: `id` set to its number and `label` to the file's label, then every
   * field of the item copied over them, so an item field named `id` or `label`
   * wins.
   */
  function VertexOf(k: nat, l: string, item: Obj): (v: Obj)
    ensures forall f :: f in item ==> f in v && v[f] == item[f]
    ensures "id" !in item ==> "id" in v && v["id"] == Components.Num(k)
    ensures "label" !in item ==> "label" in v && v["label"] == Components.Str(l)
    ensures forall f :: f in v <==> f in item || f == "id" || f == "label"
  {
    map["id" := Components.Num(k), "label" := Components.Str(l)] + item
  }

  /**
   * One item of a node file. `key` is JavaScript's coercion of a value to a
   * property name. Every `Id` field of the item must name an index that exists,
   * or the assignment into it throws.
   */
  function AddItem(st: State, l: string, item: Obj, key: Components.JsValue -> string): (r: Result<State>)
    ensures r.Ok? <==> forall p :: p in item && EndsWithId(p) ==> p in st.keys
    ensures r.Ok? ==> r.value.keys.Keys == st.keys.Keys
    ensures r.Ok? ==> r.value.currentEdge == st.currentEdge && r.value.edges == st.edges
    ensures r.Ok? ==> r.value.currentVertex == st.currentVertex + 1
  {
    if exists p :: p in item && EndsWithId(p) && p !in st.keys then Err(UndefinedIndex)
    else
      var k := st.currentVertex + 1;
      Ok(st.(currentVertex := k,
             vertices := st.vertices[k := VertexOf(k, l, item)],
             keys := map p | p in st.keys :: if p in item && EndsWithId(p) then st.keys[p][key(item[p]) := k] else st.keys[p]))
  }

  /** The inner `forEach` of `getNodes`: the items in order, stopping at the first that throws. */
  function LoadItems(st: State, l: string, items: seq<Obj>, key: Components.JsValue -> string): (r: Result<State>)
    ensures r.Ok? ==> r.value.keys.Keys == st.keys.Keys
    ensures r.Ok? ==> r.value.currentEdge == st.currentEdge && r.value.edges == st.edges
    ensures r.Ok? ==> r.value.currentVertex == st.currentVertex + |items|
    decreases |items|
  {
    if items == [] then Ok(st)
    else
      match LoadItems(st, l, items[..|items| - 1], key)
      case Err(e) => Err(e)
      case Ok(s) => AddItem(s, l, items[|items| - 1], key)
  }

  /** One node file: its index starts empty, then its items are read. */
  function LoadFile(st: State, nf: NodeFile, key: Components.JsValue -> string): (r: Result<State>)
    ensures r.Ok? ==> r.value.keys.Keys == st.keys.Keys + {nf.idField}
    ensures r.Ok? ==> r.value.currentEdge == st.currentEdge && r.value.edges == st.edges
    ensures r.Ok? ==> r.value.currentVertex == st.currentVertex + |nf.items|
  {
    LoadItems(st.(keys := st.keys[nf.idField := map[]]), nf.vertexLabel, nf.items, key)
  }

  /** `getNodes`: the node files in order, from the starting state. */
  function GetNodes(files: seq<NodeFile>, key: Components.JsValue -> string): (r: Result<State>)
    ensures r.Ok? ==> r.value.currentEdge == 0 && r.value.edges == map[]
    decreases |files|
  {
    if files == [] then Ok(Start)
    else
      match GetNodes(files[..|files| - 1], key)
      case Err(e) => Err(e)
      case Ok(s) => LoadFile(s, files[|files| - 1], key)
  }

  /** `keys[tbl][key(v)]`, `undefined` when the index has no such entry. */
  function Lookup(tbl: map<string, nat>, v: Components.JsValue, key: Components.JsValue -> string): (r: Option<nat>)
    ensures r.Some? <==> key(v) in tbl
    ensures r.Some? ==> r.value == tbl[key(v)]
  {
    if key(v) in tbl then Some(tbl[key(v)]) else None
  }

  /**
   * One item of a relationship file: the next edge number, the endpoints looked
   * up in the indexes the relationship names, which must exist.
   */
  function AddEdge(st: State, rel: Rel, item: Obj, key: Components.JsValue -> string): (r: Result<State>)
    ensures r.Ok? <==> rel.src in st.keys && rel.dst in st.keys
    ensures r.Ok? ==> r.value.currentEdge == st.currentEdge + 1
    ensures r.Ok? ==> r.value.edges.Keys == st.edges.Keys + {st.currentEdge + 1}
    ensures r.Ok? ==> forall k :: k in st.edges && k != st.currentEdge + 1 ==> r.value.edges[k] == st.edges[k]
    ensures r.Ok? ==> r.value.keys == st.keys && r.value.vertices == st.vertices && r.value.currentVertex == st.currentVertex
  {
    if rel.src !in st.keys || rel.dst !in st.keys then Err(UndefinedIndex)
    else
      var k := st.currentEdge + 1;
      var e := Edge(Lookup(st.keys[rel.src], Field(item, "source"), key),
                    Lookup(st.keys[rel.dst], Field(item, "destination"), key),
                    rel.edgeLabel);
      Ok(st.(currentEdge := k, edges := st.edges[k := e]))
  }

  /** The inner `forEach` of `getEdges`. */
  function LoadRelItems(st: State, rel: Rel, items: seq<Obj>, key: Components.JsValue -> string): (r: Result<State>)
    ensures r.Ok? ==> r.value.keys == st.keys && r.value.vertices == st.vertices && r.value.currentVertex == st.currentVertex
    ensures r.Ok? ==> r.value.currentEdge == st.currentEdge + |items|
    decreases |items|
  {
    if items == [] then Ok(st)
    else
      match LoadRelItems(st, rel, items[..|items| - 1], key)
      case Err(e) => Err(e)
      case Ok(s) => AddEdge(s, rel, items[|items| - 1], key)
  }

  /** `getEdges`: the relationship files in order. */
  function GetEdges(st: State, rels: seq<RelFile>, key: Components.JsValue -> string): (r: Result<State>)
    ensures r.Ok? ==> r.value.keys == st.keys && r.value.vertices == st.vertices && r.value.currentVertex == st.currentVertex
    decreases |rels|
  {
    if rels == [] then Ok(st)
    else
      match GetEdges(st, rels[..|rels| - 1], key)
      case Err(e) => Err(e)
      case Ok(s) => LoadRelItems(s, rels[|rels| - 1].rel, rels[|rels| - 1].items, key)
  }

  /** The whole script: `getNodes()` then `getEdges()`. */
  function Run(nodes: seq<NodeFile>, rels: seq<RelFile>, key: Components.JsValue -> string): (r: Result<State>)
  {
    match GetNodes(nodes, key)
    case Err(e) => Err(e)
    case Ok(s) => GetEdges(s, rels, key)
  }
}
