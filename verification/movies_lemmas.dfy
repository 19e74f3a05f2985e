/**
 * What the movies converter builds, stated against flat reference listings:
 * the items of all node files in order (vertex `k` comes from entry `k - 1`)
 * and the items of all relationship files in order (likewise for edges).
 */
module MoviesLemmas {
  import opened Wrappers
  import opened Movies
  import Components

  /** JavaScript's coercion of a value to a property name. */
  type Key = Components.JsValue -> string

  /** The items of one file, each paired with the file's label. */
  function Labelled<L>(l: L, items: seq<Obj>): (r: seq<(L, Obj)>)
    ensures |r| == |items|
    ensures forall j :: 0 <= j < |items| ==> r[j] == (l, items[j])
  {
    seq(|items|, j requires 0 <= j < |items| => (l, items[j]))
  }

  /** The items of the node files in file order, each with its file's vertex label. */
  function Listing(files: seq<NodeFile>): seq<(string, Obj)>
    decreases |files|
  {
    if files == [] then []
    else Listing(files[..|files| - 1]) + Labelled(files[|files| - 1].vertexLabel, files[|files| - 1].items)
  }

  /** The items of the relationship files in file order, each with its file's configuration. */
  function RelListing(rels: seq<RelFile>): seq<(Rel, Obj)>
    decreases |rels|
  {
    if rels == [] then []
    else RelListing(rels[..|rels| - 1]) + Labelled(rels[|rels| - 1].rel, rels[|rels| - 1].items)
  }

  /**
   * For each id field, the number of vertices made before the last node file
   * with that id field started: the index of the field holds only what later
   * items wrote.
   */
  function Resets(files: seq<NodeFile>): map<string, nat>
    decreases |files|
  {
    if files == [] then map[]
    else Resets(files[..|files| - 1])[files[|files| - 1].idField := |Listing(files[..|files| - 1])|]
  }

  /** The id fields of the node files. */
  function IdFields(files: seq<NodeFile>): set<string> {
    set i | 0 <= i < |files| :: files[i].idField
  }

  /** Every `Id` field of the item is in `ks`. */
  ghost predicate ItemIdsIn(item: Obj, ks: set<string>) {
    forall p :: p in item && EndsWithId(p) ==> p in ks
  }

  /** Every `Id` field of every item is in `ks`. */
  ghost predicate IdsIn(items: seq<Obj>, ks: set<string>) {
    forall j :: 0 <= j < |items| ==> ItemIdsIn(items[j], ks)
  }

  /** Every `Id` field of every item names the id field of its own file or of an earlier one. */
  ghost predicate Initialised(files: seq<NodeFile>) {
    forall i :: 0 <= i < |files| ==> IdsIn(files[i].items, IdFields(files[..i + 1]))
  }

  /** Vertex `k` of the listing has the `Id` field `p` holding a value whose key is `v`. */
  ghost predicate Has(L: seq<(string, Obj)>, k: int, p: string, v: string, key: Key) {
    1 <= k <= |L| && p in L[k - 1].1 && EndsWithId(p) && key(L[k - 1].1[p]) == v
  }

  /** The vertex counter and `vertices` hold one vertex per listed item, numbered from 1. */
  ghost predicate Counted(st: State, L: seq<(string, Obj)>) {
    && st.currentVertex == |L|
    && (forall k :: k in st.vertices <==> 1 <= k <= |L|)
    && (forall k :: 1 <= k <= |L| ==> st.vertices[k] == VertexOf(k, L[k - 1].0, L[k - 1].1))
  }

  /**
   * Each index `keys[p]` maps a key `v` to the last vertex after `from[p]` whose
   * field `p` has key `v`, and holds every such key.
   */
  ghost predicate Indexed(keys: map<string, map<string, nat>>, L: seq<(string, Obj)>, from: map<string, nat>, key: Key) {
    && keys.Keys == from.Keys
    && (forall p :: p in from ==> from[p] <= |L|)
    && (forall p, v :: p in keys && v in keys[p] ==> from[p] < keys[p][v] <= |L| && Has(L, keys[p][v], p, v, key))
    && (forall p, v, k :: p in keys && from[p] < k && Has(L, k, p, v, key) ==> v in keys[p] && k <= keys[p][v])
  }

  /** One more item keeps the earlier items' facts. */
  lemma HasSnoc(L: seq<(string, Obj)>, e: (string, Obj), k: int, p: string, v: string, key: Key)
    requires k <= |L|
    ensures Has(L + [e], k, p, v, key) <==> Has(L, k, p, v, key)
  {
    if 1 <= k {
      assert (L + [e])[k - 1] == L[k - 1];
    }
  }

  /** One item adds its vertex under the next number. */
  lemma AddItemCounted(st: State, L: seq<(string, Obj)>, l: string, item: Obj, key: Key, L': seq<(string, Obj)>)
    requires Counted(st, L) && AddItem(st, l, item, key).Ok? && L' == L + [(l, item)]
    ensures Counted(AddItem(st, l, item, key).value, L')
  {
    var s := AddItem(st, l, item, key).value;
    forall k | 1 <= k <= |L'|
      ensures s.vertices[k] == VertexOf(k, L'[k - 1].0, L'[k - 1].1)
    {
      if k <= |L| {
        assert L'[k - 1] == L[k - 1];
      }
    }
  }

  /** One item keeps each index pointing at the last writer of each key. */
  lemma AddItemIndexed(st: State, L: seq<(string, Obj)>, from: map<string, nat>, l: string, item: Obj, key: Key, L': seq<(string, Obj)>)
    requires st.currentVertex == |L| && Indexed(st.keys, L, from, key)
    requires AddItem(st, l, item, key).Ok? && L' == L + [(l, item)]
    ensures Indexed(AddItem(st, l, item, key).value.keys, L', from, key)
  {
    AddItemSound(st, L, from, l, item, key, L');
    AddItemComplete(st, L, from, l, item, key, L');
  }

  /** After one item, every index entry still names a writer of its key since the reset. */
  lemma AddItemSound(st: State, L: seq<(string, Obj)>, from: map<string, nat>, l: string, item: Obj, key: Key, L': seq<(string, Obj)>)
    requires st.currentVertex == |L| && Indexed(st.keys, L, from, key)
    requires AddItem(st, l, item, key).Ok? && L' == L + [(l, item)]
    ensures var keys := AddItem(st, l, item, key).value.keys;
            forall p, v :: p in keys && v in keys[p] ==> from[p] < keys[p][v] <= |L'| && Has(L', keys[p][v], p, v, key)
  {
    var keys := AddItem(st, l, item, key).value.keys;
    assert L'[|L|] == (l, item);
    forall p, v | p in keys && v in keys[p]
      ensures from[p] < keys[p][v] <= |L'| && Has(L', keys[p][v], p, v, key)
    {
      if !(p in item && EndsWithId(p) && v == key(item[p])) {
        HasSnoc(L, (l, item), keys[p][v], p, v, key);
      }
    }
  }

  /** After one item, every writer of a key since the reset has its key in the index, at or below the entry. */
  lemma AddItemComplete(st: State, L: seq<(string, Obj)>, from: map<string, nat>, l: string, item: Obj, key: Key, L': seq<(string, Obj)>)
    requires st.currentVertex == |L| && Indexed(st.keys, L, from, key)
    requires AddItem(st, l, item, key).Ok? && L' == L + [(l, item)]
    ensures var keys := AddItem(st, l, item, key).value.keys;
            forall p, v, k :: p in keys && from[p] < k && Has(L', k, p, v, key) ==> v in keys[p] && k <= keys[p][v]
  {
    var keys := AddItem(st, l, item, key).value.keys;
    assert L'[|L|] == (l, item);
    forall p, v, k | p in keys && from[p] < k && Has(L', k, p, v, key)
      ensures v in keys[p] && k <= keys[p][v]
    {
      if k <= |L| {
        HasSnoc(L, (l, item), k, p, v, key);
      }
    }
  }

  /** The items of one more file are the earlier items and the last. */
  lemma LabelledSnoc<L>(l: L, items: seq<Obj>, prefix: seq<(L, Obj)>)
    requires items != []
    ensures prefix + Labelled(l, items) == (prefix + Labelled(l, items[..|items| - 1])) + [(l, items[|items| - 1])]
  {
    assert Labelled(l, items) == Labelled(l, items[..|items| - 1]) + [(l, items[|items| - 1])];
  }

  /** The items of a file, read in order, keep the vertices and the indexes built. */
  lemma {:induction false} LoadItemsBuilt(st: State, L: seq<(string, Obj)>, from: map<string, nat>, l: string, items: seq<Obj>, key: Key)
    requires Counted(st, L) && Indexed(st.keys, L, from, key)
    ensures var r := LoadItems(st, l, items, key);
            r.Ok? ==> Counted(r.value, L + Labelled(l, items)) && Indexed(r.value.keys, L + Labelled(l, items), from, key)
    decreases |items|
  {
    if items == [] {
      assert L + Labelled(l, items) == L;
    } else {
      var init := items[..|items| - 1];
      LoadItemsBuilt(st, L, from, l, init, key);
      var r0 := LoadItems(st, l, init, key);
      if r0.Ok? && LoadItems(st, l, items, key).Ok? {
        LabelledSnoc(l, items, L);
        var L0 := L + Labelled(l, init);
        AddItemCounted(r0.value, L0, l, items[|items| - 1], key, L + Labelled(l, items));
        AddItemIndexed(r0.value, L0, from, l, items[|items| - 1], key, L + Labelled(l, items));
      }
    }
  }

  /** Starting an index afresh: it is empty, and nothing before this point can be in it. */
  lemma StartIndex(keys: map<string, map<string, nat>>, L: seq<(string, Obj)>, from: map<string, nat>, p: string, key: Key)
    requires Indexed(keys, L, from, key)
    ensures Indexed(keys[p := map[]], L, from[p := |L|], key)
  {
  }

  /** The node files, read in order, build one vertex per listed item and the indexes since each field's last reset. */
  lemma {:induction false} GetNodesBuilt(files: seq<NodeFile>, key: Key)
    ensures var r := GetNodes(files, key);
            r.Ok? ==> Counted(r.value, Listing(files)) && Indexed(r.value.keys, Listing(files), Resets(files), key)
    decreases |files|
  {
    if files != [] {
      var init := files[..|files| - 1];
      var last := files[|files| - 1];
      GetNodesBuilt(init, key);
      var r0 := GetNodes(init, key);
      if r0.Ok? {
        var s := r0.value;
        StartIndex(s.keys, Listing(init), Resets(init), last.idField, key);
        LoadItemsBuilt(s.(keys := s.keys[last.idField := map[]]), Listing(init), Resets(files), last.vertexLabel, last.items, key);
      }
    }
  }

  /** The items of a file are read to the end exactly when each of their `Id` fields names an existing index. */
  lemma {:induction false} LoadItemsOk(st: State, l: string, items: seq<Obj>, key: Key)
    ensures LoadItems(st, l, items, key).Ok? <==> IdsIn(items, st.keys.Keys)
    ensures LoadItems(st, l, items, key).Err? ==> LoadItems(st, l, items, key).message == UndefinedIndex
    decreases |items|
  {
    if items != [] {
      var init := items[..|items| - 1];
      LoadItemsOk(st, l, init, key);
      IdsInSnoc(items, st.keys.Keys);
    }
  }

  /** The items satisfy `IdsIn` when the earlier items and the last do. */
  lemma IdsInSnoc(items: seq<Obj>, ks: set<string>)
    requires items != []
    ensures IdsIn(items, ks) <==> IdsIn(items[..|items| - 1], ks) && ItemIdsIn(items[|items| - 1], ks)
  {
    var init := items[..|items| - 1];
    assert forall j :: 0 <= j < |init| ==> init[j] == items[j];
  }

  /** One more file adds its id field. */
  lemma IdFieldsSnoc(files: seq<NodeFile>)
    requires files != []
    ensures IdFields(files) == IdFields(files[..|files| - 1]) + {files[|files| - 1].idField}
  {
    var init := files[..|files| - 1];
    forall p | p in IdFields(init)
      ensures p in IdFields(files)
    {
      var i :| 0 <= i < |init| && init[i].idField == p;
      assert files[i] == init[i];
    }
    forall p | p in IdFields(files)
      ensures p in IdFields(init) + {files[|files| - 1].idField}
    {
      var i :| 0 <= i < |files| && files[i].idField == p;
      if i < |init| {
        assert files[i] == init[i];
      }
    }
  }

  /** The indexes after the node files are those of the configured id fields. */
  lemma {:induction false} GetNodesKeys(files: seq<NodeFile>, key: Key)
    ensures var r := GetNodes(files, key);
            r.Ok? ==> r.value.keys.Keys == IdFields(files)
    decreases |files|
  {
    if files != [] {
      GetNodesKeys(files[..|files| - 1], key);
      IdFieldsSnoc(files);
    }
  }

  /** The files are initialised when the earlier files are and the last file's `Id` fields are configured ones. */
  lemma InitialisedSnoc(files: seq<NodeFile>)
    requires files != []
    ensures Initialised(files) <==>
              Initialised(files[..|files| - 1]) && IdsIn(files[|files| - 1].items, IdFields(files))
  {
    var init := files[..|files| - 1];
    forall i | 0 <= i < |init|
      ensures files[i] == init[i] && files[..i + 1] == init[..i + 1]
    {
    }
    assert files[..|init| + 1] == files;
  }

  /**
   * `getNodes` runs to the end exactly when every `Id` field of every item names
   * the id field of its own file or of an earlier one; otherwise it throws
   * `TypeError`.
   */
  lemma {:induction false} GetNodesOk(files: seq<NodeFile>, key: Key)
    ensures GetNodes(files, key).Ok? <==> Initialised(files)
    ensures GetNodes(files, key).Err? ==> GetNodes(files, key).message == UndefinedIndex
    decreases |files|
  {
    if files != [] {
      var init := files[..|files| - 1];
      var last := files[|files| - 1];
      GetNodesOk(init, key);
      GetNodesKeys(init, key);
      InitialisedSnoc(files);
      IdFieldsSnoc(files);
      var r0 := GetNodes(init, key);
      if r0.Ok? {
        var s := r0.value;
        LoadItemsOk(s.(keys := s.keys[last.idField := map[]]), last.vertexLabel, last.items, key);
      }
    }
  }

  /** The edge is `item`'s, resolved through the indexes `keys` as the relationship `rel` names them. */
  ghost predicate Resolves(e: Edge, rel: Rel, item: Obj, keys: map<string, map<string, nat>>, key: Key) {
    && rel.src in keys && rel.dst in keys
    && e == Edge(Lookup(keys[rel.src], Field(item, "source"), key),
                 Lookup(keys[rel.dst], Field(item, "destination"), key),
                 rel.edgeLabel)
  }

  /** The edge counter and `edges` hold one edge per listed relationship item, numbered from 1. */
  ghost predicate EdgesCounted(st: State, E: seq<(Rel, Obj)>, keys: map<string, map<string, nat>>, key: Key) {
    && st.currentEdge == |E|
    && (forall k :: k in st.edges <==> 1 <= k <= |E|)
    && (forall k :: 1 <= k <= |E| ==> Resolves(st.edges[k], E[k - 1].0, E[k - 1].1, keys, key))
  }

  /** One relationship item adds its edge under the next number. */
  lemma AddEdgeCounted(st: State, E: seq<(Rel, Obj)>, rel: Rel, item: Obj, key: Key, E': seq<(Rel, Obj)>)
    requires EdgesCounted(st, E, st.keys, key) && AddEdge(st, rel, item, key).Ok? && E' == E + [(rel, item)]
    ensures EdgesCounted(AddEdge(st, rel, item, key).value, E', st.keys, key)
  {
    var s := AddEdge(st, rel, item, key).value;
    forall k | 1 <= k <= |E'|
      ensures Resolves(s.edges[k], E'[k - 1].0, E'[k - 1].1, st.keys, key)
    {
      if k <= |E| {
        assert E'[k - 1] == E[k - 1];
      }
    }
  }

  /** The items of a relationship file, read in order, keep the edges built. */
  lemma {:induction false} LoadRelItemsBuilt(st: State, E: seq<(Rel, Obj)>, rel: Rel, items: seq<Obj>, key: Key)
    requires EdgesCounted(st, E, st.keys, key)
    ensures var r := LoadRelItems(st, rel, items, key);
            r.Ok? ==> EdgesCounted(r.value, E + Labelled(rel, items), st.keys, key)
    decreases |items|
  {
    if items == [] {
      assert E + Labelled(rel, items) == E;
    } else {
      var init := items[..|items| - 1];
      LoadRelItemsBuilt(st, E, rel, init, key);
      var r0 := LoadRelItems(st, rel, init, key);
      if r0.Ok? && LoadRelItems(st, rel, items, key).Ok? {
        LabelledSnoc(rel, items, E);
        AddEdgeCounted(r0.value, E + Labelled(rel, init), rel, items[|items| - 1], key, E + Labelled(rel, items));
      }
    }
  }

  /** The relationship files, read in order from a state with no edges, build one edge per listed item. */
  lemma {:induction false} GetEdgesBuilt(st: State, rels: seq<RelFile>, key: Key)
    requires st.currentEdge == 0 && st.edges == map[]
    ensures var r := GetEdges(st, rels, key);
            r.Ok? ==> EdgesCounted(r.value, RelListing(rels), st.keys, key)
    decreases |rels|
  {
    if rels != [] {
      var init := rels[..|rels| - 1];
      GetEdgesBuilt(st, init, key);
      var r0 := GetEdges(st, init, key);
      if r0.Ok? {
        LoadRelItemsBuilt(r0.value, RelListing(init), rels[|rels| - 1].rel, rels[|rels| - 1].items, key);
      }
    }
  }

  /** The items of a relationship file are read to the end exactly when there are none or both its indexes exist. */
  lemma {:induction false} LoadRelItemsOk(st: State, rel: Rel, items: seq<Obj>, key: Key)
    ensures LoadRelItems(st, rel, items, key).Ok? <==> items == [] || (rel.src in st.keys && rel.dst in st.keys)
    ensures LoadRelItems(st, rel, items, key).Err? ==> LoadRelItems(st, rel, items, key).message == UndefinedIndex
    decreases |items|
  {
    if items != [] {
      LoadRelItemsOk(st, rel, items[..|items| - 1], key);
    }
  }

  /** Every relationship file with items names two existing indexes. */
  ghost predicate RelsResolvable(rels: seq<RelFile>, ks: set<string>) {
    forall i :: 0 <= i < |rels| && rels[i].items != [] ==> rels[i].rel.src in ks && rels[i].rel.dst in ks
  }

  /** `getEdges` runs to the end exactly when every relationship file with items names two existing indexes; otherwise it throws `TypeError`. */
  lemma {:induction false} GetEdgesOk(st: State, rels: seq<RelFile>, key: Key)
    ensures GetEdges(st, rels, key).Ok? <==> RelsResolvable(rels, st.keys.Keys)
    ensures GetEdges(st, rels, key).Err? ==> GetEdges(st, rels, key).message == UndefinedIndex
    decreases |rels|
  {
    if rels != [] {
      var init := rels[..|rels| - 1];
      GetEdgesOk(st, init, key);
      var r0 := GetEdges(st, init, key);
      if r0.Ok? {
        LoadRelItemsOk(r0.value, rels[|rels| - 1].rel, rels[|rels| - 1].items, key);
      }
      assert forall i :: 0 <= i < |init| ==> init[i] == rels[i];
    }
  }

  /**
   * The script runs to the end exactly when every `Id` field of every node item
   * names the id field of its own file or an earlier one, and every relationship
   * file with items names two configured id fields; otherwise it throws
   * `TypeError`.
   */
  lemma RunOk(nodes: seq<NodeFile>, rels: seq<RelFile>, key: Key)
    ensures Run(nodes, rels, key).Ok? <==> Initialised(nodes) && RelsResolvable(rels, IdFields(nodes))
    ensures Run(nodes, rels, key).Err? ==> Run(nodes, rels, key).message == UndefinedIndex
  {
    GetNodesOk(nodes, key);
    GetNodesKeys(nodes, key);
    var r := GetNodes(nodes, key);
    if r.Ok? {
      GetEdgesOk(r.value, rels, key);
    }
  }

  /**
   * The totals the script logs equal the counts: vertices are numbered
   * `1 .. currentVertex`, one per node item, and edges `1 .. currentEdge`, one
   * per relationship item.
   */
  lemma Totals(nodes: seq<NodeFile>, rels: seq<RelFile>, key: Key)
    ensures var r := Run(nodes, rels, key);
            r.Ok? ==>
              && r.value.currentVertex == |Listing(nodes)|
              && (forall k :: k in r.value.vertices <==> 1 <= k <= r.value.currentVertex)
              && r.value.currentEdge == |RelListing(rels)|
              && (forall k :: k in r.value.edges <==> 1 <= k <= r.value.currentEdge)
  {
    GetNodesBuilt(nodes, key);
    var r := GetNodes(nodes, key);
    if r.Ok? {
      GetEdgesBuilt(r.value, rels, key);
    }
  }

  /**
   * Vertex `k` is made from the `k`-th node item: every field of the item, `id`
   * equal to `k` and `label` equal to its file's label unless the item has its
   * own.
   */
  lemma VertexContents(nodes: seq<NodeFile>, rels: seq<RelFile>, key: Key, k: nat)
    requires Run(nodes, rels, key).Ok? && 1 <= k <= |Listing(nodes)|
    ensures var v := Run(nodes, rels, key).value.vertices;
            var entry := Listing(nodes)[k - 1];
            && k in v
            && (forall f :: f in v[k] <==> f in entry.1 || f == "id" || f == "label")
            && (forall f :: f in entry.1 ==> v[k][f] == entry.1[f])
            && ("id" !in entry.1 ==> v[k]["id"] == Components.Num(k))
            && ("label" !in entry.1 ==> v[k]["label"] == Components.Str(entry.0))
  {
    GetNodesBuilt(nodes, key);
  }

  /** `m` is the last vertex after `from` whose field `p` has key `v`. */
  ghost predicate Latest(L: seq<(string, Obj)>, from: nat, m: nat, p: string, v: string, key: Key) {
    && from < m && Has(L, m, p, v, key)
    && forall k :: m < k && Has(L, k, p, v, key) ==> false
  }

  /** No vertex after `from` has field `p` with key `v`. */
  ghost predicate Absent(L: seq<(string, Obj)>, from: nat, p: string, v: string, key: Key) {
    forall k :: from < k && Has(L, k, p, v, key) ==> false
  }

  /** Looking a value up in an index finds the last vertex since the index's reset whose field has that key, or `undefined` when there is none. */
  lemma IndexLookup(keys: map<string, map<string, nat>>, L: seq<(string, Obj)>, from: map<string, nat>, key: Key, p: string, x: Components.JsValue)
    requires Indexed(keys, L, from, key) && p in keys
    ensures var r := Lookup(keys[p], x, key);
            && (r.Some? ==> Latest(L, from[p], r.value, p, key(x), key))
            && (r.None? ==> Absent(L, from[p], p, key(x), key))
  {
  }

  /**
   * Edge `k` is made from the `k`-th relationship item: its label is the
   * relationship's, and each endpoint is the last vertex, since the index's
   * reset, whose field of that name has the key of the item's `source` (or
   * `destination`), or `undefined` when no such vertex exists.
   */
  lemma EdgeEndpoints(nodes: seq<NodeFile>, rels: seq<RelFile>, key: Key, k: nat)
    requires Run(nodes, rels, key).Ok? && 1 <= k <= |RelListing(rels)|
    ensures var st := Run(nodes, rels, key).value;
            var L := Listing(nodes);
            var from := Resets(nodes);
            var rel := RelListing(rels)[k - 1].0;
            var item := RelListing(rels)[k - 1].1;
            && k in st.edges
            && rel.src in from && rel.dst in from
            && st.edges[k].edgeLabel == rel.edgeLabel
            && (st.edges[k].source.Some? ==> Latest(L, from[rel.src], st.edges[k].source.value, rel.src, key(Field(item, "source")), key))
            && (st.edges[k].source.None? ==> Absent(L, from[rel.src], rel.src, key(Field(item, "source")), key))
            && (st.edges[k].destination.Some? ==> Latest(L, from[rel.dst], st.edges[k].destination.value, rel.dst, key(Field(item, "destination")), key))
            && (st.edges[k].destination.None? ==> Absent(L, from[rel.dst], rel.dst, key(Field(item, "destination")), key))
  {
    RunBuilt(nodes, rels, key);
    var st := Run(nodes, rels, key).value;
    ResolvedEndpoints(st.edges[k], RelListing(rels)[k - 1].0, RelListing(rels)[k - 1].1, st.keys, Listing(nodes), Resets(nodes), key);
  }

  /** After a run, the indexes are those the node files built and every edge resolves through them. */
  lemma RunBuilt(nodes: seq<NodeFile>, rels: seq<RelFile>, key: Key)
    requires Run(nodes, rels, key).Ok?
    ensures var st := Run(nodes, rels, key).value;
            Indexed(st.keys, Listing(nodes), Resets(nodes), key) && EdgesCounted(st, RelListing(rels), st.keys, key)
  {
    GetNodesBuilt(nodes, key);
    var s := GetNodes(nodes, key).value;
    GetEdgesBuilt(s, rels, key);
  }

  /** An edge resolved through indexes built as `Indexed` says points at the last matching vertices. */
  lemma ResolvedEndpoints(e: Edge, rel: Rel, item: Obj, keys: map<string, map<string, nat>>, L: seq<(string, Obj)>, from: map<string, nat>, key: Key)
    requires Resolves(e, rel, item, keys, key) && Indexed(keys, L, from, key)
    ensures rel.src in from && rel.dst in from
    ensures e.edgeLabel == rel.edgeLabel
    ensures e.source.Some? ==> Latest(L, from[rel.src], e.source.value, rel.src, key(Field(item, "source")), key)
    ensures e.source.None? ==> Absent(L, from[rel.src], rel.src, key(Field(item, "source")), key)
    ensures e.destination.Some? ==> Latest(L, from[rel.dst], e.destination.value, rel.dst, key(Field(item, "destination")), key)
    ensures e.destination.None? ==> Absent(L, from[rel.dst], rel.dst, key(Field(item, "destination")), key)
  {
    IndexLookup(keys, L, from, key, rel.src, Field(item, "source"));
    IndexLookup(keys, L, from, key, rel.dst, Field(item, "destination"));
  }

  /** With the configured files, vertices are numbered through the genres, then the films, then the directors. */
  lemma ConfiguredListing(genres: seq<Obj>, films: seq<Obj>, directors: seq<Obj>)
    ensures Listing(Nodes(genres, films, directors)) ==
            Labelled("Genre", genres) + Labelled("Film", films) + Labelled("Director", directors)
    ensures Resets(Nodes(genres, films, directors)) ==
            map["genreId" := 0, "filmId" := |genres|, "directorId" := |genres| + |films|]
    ensures IdFields(Nodes(genres, films, directors)) == {"genreId", "filmId", "directorId"}
  {
    var n := Nodes(genres, films, directors);
    var n1, n2 := n[..1], n[..2];
    assert n2[..1] == n1 && n1[..0] == [] && n[..2] == n2;
    assert Listing(n1) == [] + Labelled("Genre", genres);
    assert Listing(n2) == Listing(n1) + Labelled("Film", films);
    assert Listing(n) == Listing(n2) + Labelled("Director", directors);
    assert Resets(n1) == map[]["genreId" := 0];
    assert Resets(n2) == Resets(n1)["filmId" := |genres|];
    assert Resets(n) == Resets(n2)["directorId" := |genres| + |films|];
    IdFieldsSnoc(n);
    IdFieldsSnoc(n[..2]);
    IdFieldsSnoc(n[..1]);
  }

  /** With the configured files, edges are numbered through the director-film pairs, then the film-genre pairs. */
  lemma ConfiguredRelListing(directorfilm: seq<Obj>, filmgenre: seq<Obj>)
    ensures RelListing(Relationships(directorfilm, filmgenre)) ==
            Labelled(Rel("FILMS", "directorId", "filmId"), directorfilm) + Labelled(Rel("GENRE", "filmId", "genreId"), filmgenre)
  {
    var r := Relationships(directorfilm, filmgenre);
    var r1 := r[..1];
    assert r1[..0] == [] && r[..2 - 1] == r1;
    assert RelListing(r1) == [] + Labelled(Rel("FILMS", "directorId", "filmId"), directorfilm);
    assert RelListing(r) == RelListing(r1) + Labelled(Rel("GENRE", "filmId", "genreId"), filmgenre);
  }

  /**
   * With the configured files the script throws exactly when a genre has an
   * `Id` field other than `genreId`, a film one other than `genreId` or
   * `filmId`, or a director one other than the three: the relationship files
   * always find their indexes.
   */
  lemma ConfiguredRunOk(genres: seq<Obj>, films: seq<Obj>, directors: seq<Obj>,
                        directorfilm: seq<Obj>, filmgenre: seq<Obj>, key: Key)
    ensures Run(Nodes(genres, films, directors), Relationships(directorfilm, filmgenre), key).Ok? <==>
            && IdsIn(genres, {"genreId"})
            && IdsIn(films, {"genreId", "filmId"})
            && IdsIn(directors, {"genreId", "filmId", "directorId"})
  {
    var n := Nodes(genres, films, directors);
    RunOk(n, Relationships(directorfilm, filmgenre), key);
    ConfiguredListing(genres, films, directors);
    assert n[..1] == [n[0]] && n[..2] == [n[0], n[1]] && n[..3] == n;
    assert IdFields(n[..1]) == {"genreId"};
    assert IdFields(n[..2]) == {"genreId", "filmId"};
  }
}
