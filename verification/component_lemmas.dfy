/**
 * Properties of `Component`: property and computed round trips and frames, the
 * falsy-reads-as-missing rule of the computed map, the payload `persist`
 * serialises, and the bulk-area short cut.
 */
module ComponentLemmas {
  import opened Wrappers
  import opened Components

  /** After `setProperty(p, v)`, `getProperty(p)` returns `v`, and every other name reads as before. */
  lemma SetThenGetProperty(c: Component, p: JsValue, v: JsValue, q: JsValue)
    requires p.Str? && AcceptedValue(v)
    ensures SetProperty(c, p, v).Returns?
    ensures GetProperty(SetProperty(c, p, v).value, p) == Returns(v)
    ensures q != p ==> GetProperty(SetProperty(c, p, v).value, q) == GetProperty(c, q)
  {
  }

  /** After `removeProperty(p)`, `getProperty(p)` returns `undefined`, and every other name reads as before. */
  lemma RemoveThenGetProperty(c: Component, p: JsValue, q: JsValue)
    requires p.Str?
    ensures RemoveProperty(c, p).Returns?
    ensures GetProperty(RemoveProperty(c, p).value, p) == Returns(Undefined)
    ensures q != p ==> GetProperty(RemoveProperty(c, p).value, q) == GetProperty(c, q)
  {
  }

  /**
   * A value set with `setComputed` reads back only when it is truthy: a stored
   * `0`, `false`, `""` or `NaN` reads as "not present".
   */
  lemma SetThenGetComputed(c: Component, a: JsValue, p: JsValue, v: JsValue)
    requires a.Str? && p.Str? && AcceptedValue(v)
    ensures SetComputed(c, a, p, v).Returns?
    ensures GetComputed(SetComputed(c, a, p, v).value, a, p) ==
      if Truthy(v) then Returns(v) else Throws(AlgoPropNotPresent(p.s))
  {
  }

  /**
   * `setComputed(a, p, v)` changes no other entry: other algorithms read as
   * before, and so do the other entries of an existing bucket; a bucket it
   * creates holds nothing else.
   */
  lemma SetComputedFrame(c: Component, a: JsValue, p: JsValue, v: JsValue, a2: JsValue, p2: JsValue)
    requires a.Str? && p.Str? && AcceptedValue(v)
    requires a2 != a || p2 != p
    ensures var c' := SetComputed(c, a, p, v).value;
            && (a2 != a || a.s in c.computed ==> GetComputed(c', a2, p2) == GetComputed(c, a2, p2))
            && (a2 == a && a.s !in c.computed && p2.Str? ==> GetComputed(c', a2, p2) == Throws(AlgoPropNotPresent(p2.s)))
  {
  }

  /** `getComputed` throws "algorithm not present" only for an algorithm that has no bucket at all. */
  lemma GetComputedErrors(c: Component, a: JsValue, p: JsValue)
    requires a.Str? && p.Str?
    ensures GetComputed(c, a, p) == Throws(AlgoNotPresent(a.s)) <==> a.s !in c.computed
    ensures GetComputed(c, a, p) == Throws(AlgoPropNotPresent(p.s)) <==>
      a.s in c.computed && (p.s !in c.computed[a.s] || !Truthy(c.computed[a.s][p.s]))
  {
  }

  /** `removeComputed(a, p)` leaves the bucket in place: `getComputed(a, p)` then says the property, not the algorithm, is missing. */
  lemma RemoveComputedKeepsBucket(c: Component, a: JsValue, p: JsValue)
    requires GetComputed(c, a, p).Returns?
    ensures RemoveComputed(c, a, p).Returns?
    ensures a.s in RemoveComputed(c, a, p).value.computed
    ensures GetComputed(RemoveComputed(c, a, p).value, a, p) == Throws(AlgoPropNotPresent(p.s))
  {
  }

  /**
   * `removeComputed(a, p)` changes no other entry: every other (algorithm,
   * property) pair reads as it did before.
   */
  lemma RemoveComputedFrame(c: Component, a: JsValue, p: JsValue, a2: JsValue, p2: JsValue)
    requires RemoveComputed(c, a, p).Returns?
    requires a2 != a || p2 != p
    ensures GetComputed(RemoveComputed(c, a, p).value, a2, p2) == GetComputed(c, a2, p2)
  {
  }

  /** `k.includes('__')`, stated by position. */
  lemma {:induction false} HasDoubleUnderscoreAt(k: string)
    ensures HasDoubleUnderscore(k) <==> exists i :: 0 <= i < |k| - 1 && k[i] == '_' && k[i + 1] == '_'
    decreases |k|
  {
    if |k| >= 2 {
      HasDoubleUnderscoreAt(k[1..]);
      if HasDoubleUnderscore(k[1..]) {
        var i :| 0 <= i < |k| - 2 && k[1..][i] == '_' && k[1..][i + 1] == '_';
        assert k[i + 1] == '_' && k[i + 2] == '_';
      }
      if exists i :: 0 <= i < |k| - 1 && k[i] == '_' && k[i + 1] == '_' {
        var i :| 0 <= i < |k| - 1 && k[i] == '_' && k[i + 1] == '_';
        if i > 0 {
          assert k[1..][i - 1] == '_' && k[1..][i] == '_';
        }
      }
    }
  }

  /** A name is in the serialised object exactly when some field without `__` is renamed to it. */
  lemma {:induction false} SerializeKeys(fields: seq<(string, JsValue)>, name: string)
    ensures name in Serialize(fields) <==>
      exists i :: 0 <= i < |fields| && !HasDoubleUnderscore(fields[i].0) && DropFirst(fields[i].0) == name
    decreases |fields|
  {
    if fields != [] {
      var init := fields[..|fields| - 1];
      SerializeKeys(init, name);
      if exists i :: 0 <= i < |init| && !HasDoubleUnderscore(init[i].0) && DropFirst(init[i].0) == name {
        var i :| 0 <= i < |init| && !HasDoubleUnderscore(init[i].0) && DropFirst(init[i].0) == name;
        assert fields[i] == init[i];
      }
      if exists i :: 0 <= i < |fields| && !HasDoubleUnderscore(fields[i].0) && DropFirst(fields[i].0) == name {
        var i :| 0 <= i < |fields| && !HasDoubleUnderscore(fields[i].0) && DropFirst(fields[i].0) == name;
        if i < |init| {
          assert init[i] == fields[i];
        }
      }
    }
  }

  /** The value under a name is that of the last field renamed to it. */
  lemma {:induction false} SerializeLastWins(fields: seq<(string, JsValue)>, i: nat)
    requires i < |fields| && !HasDoubleUnderscore(fields[i].0)
    requires forall j :: i < j < |fields| ==> HasDoubleUnderscore(fields[j].0) || DropFirst(fields[j].0) != DropFirst(fields[i].0)
    ensures DropFirst(fields[i].0) in Serialize(fields)
    ensures Serialize(fields)[DropFirst(fields[i].0)] == fields[i].1
    decreases |fields|
  {
    if i < |fields| - 1 {
      var init := fields[..|fields| - 1];
      assert init[i] == fields[i];
      forall j | i < j < |init|
        ensures HasDoubleUnderscore(init[j].0) || DropFirst(init[j].0) != DropFirst(init[i].0)
      {
        assert init[j] == fields[j];
      }
      SerializeLastWins(init, i);
    }
  }

  /**
   * The object `persist` serialises from a component: exactly `id`, `label`,
   * `prop`, `computed` and `meta`, from `_id`, `_label`, `_prop`, `_computed`
   * and `_meta`; the `__` fields are left out.
   */
  lemma SerializeComponent(c: Component)
    ensures Serialize(OwnFields(c)) ==
      map["id" := c.id, "label" := c.labelValue, "prop" := Object(c.prop), "computed" := ComputedObject(c), "meta" := Object(c.meta)]
  {
    SerializeHidden(Str(c.ref), c.ctype, Ref(0), c.debug);
    SerializeShown([("__ref", Str(c.ref)), ("__type", c.ctype), ("__parentGraph", Ref(0)), ("__debug", c.debug)],
                   c.id, c.labelValue, Object(c.prop), ComputedObject(c), Object(c.meta));
  }

  /** The five `_` fields serialise, after fields that serialise to nothing, to their renamed names. */
  lemma SerializeShown(pre: seq<(string, JsValue)>, id: JsValue, lab: JsValue, prop: JsValue, comp: JsValue, meta: JsValue)
    requires Serialize(pre) == map[]
    ensures Serialize(pre + [("_id", id), ("_label", lab), ("_prop", prop), ("_computed", comp), ("_meta", meta)])
         == map["id" := id, "label" := lab, "prop" := prop, "computed" := comp, "meta" := meta]
  {
    var f5 := pre + [("_id", id)];
    var f6 := f5 + [("_label", lab)];
    var f7 := f6 + [("_prop", prop)];
    var f8 := f7 + [("_computed", comp)];
    IdName();
    SerializeSnoc(pre, "_id", id);
    LabelName();
    SerializeSnoc(f5, "_label", lab);
    PropName();
    SerializeSnoc(f6, "_prop", prop);
    ComputedName();
    SerializeSnoc(f7, "_computed", comp);
    MetaName();
    SerializeSnoc(f8, "_meta", meta);
    AppendFive(pre, ("_id", id), ("_label", lab), ("_prop", prop), ("_computed", comp), ("_meta", meta));
  }

  /** Appending five elements at once is appending them one by one. */
  lemma AppendFive<T>(pre: seq<T>, a: T, b: T, c: T, d: T, e: T)
    ensures pre + [a, b, c, d, e] == pre + [a] + [b] + [c] + [d] + [e]
  {
  }

  /** The four `__` fields serialise to nothing. */
  lemma SerializeHidden(r: JsValue, t: JsValue, g: JsValue, d: JsValue)
    ensures Serialize([("__ref", r), ("__type", t), ("__parentGraph", g), ("__debug", d)]) == map[]
  {
    var f0: seq<(string, JsValue)> := [];
    HiddenNames();
    SerializeSnoc(f0, "__ref", r);
    SerializeSnoc(f0 + [("__ref", r)], "__type", t);
    SerializeSnoc(f0 + [("__ref", r)] + [("__type", t)], "__parentGraph", g);
    SerializeSnoc(f0 + [("__ref", r)] + [("__type", t)] + [("__parentGraph", g)], "__debug", d);
    assert f0 + [("__ref", r)] + [("__type", t)] + [("__parentGraph", g)] + [("__debug", d)]
        == [("__ref", r), ("__type", t), ("__parentGraph", g), ("__debug", d)];
  }

  /** Serialising one more field adds it under its renamed name, unless its name holds `__`. */
  lemma SerializeSnoc(fields: seq<(string, JsValue)>, k: string, v: JsValue)
    ensures Serialize(fields + [(k, v)]) ==
      if HasDoubleUnderscore(k) then Serialize(fields) else Serialize(fields)[DropFirst(k) := v]
  {
    assert (fields + [(k, v)])[..|fields|] == fields;
  }

  /** The constructor's `__` field names hold `__`. */
  lemma HiddenNames()
    ensures HasDoubleUnderscore("__ref") && HasDoubleUnderscore("__type")
    ensures HasDoubleUnderscore("__parentGraph") && HasDoubleUnderscore("__debug")
  {
    LeadingPair("__ref");
    LeadingPair("__type");
    LeadingPair("__parentGraph");
    LeadingPair("__debug");
  }

  /** `_id` holds no `__` and is renamed to `id`. */
  lemma IdName()
    ensures !HasDoubleUnderscore("_id") && DropFirst("_id") == "id"
  {
    PrefixedName("_id");
  }

  /** `_label` holds no `__` and is renamed to `label`. */
  lemma LabelName()
    ensures !HasDoubleUnderscore("_label") && DropFirst("_label") == "label"
  {
    PrefixedName("_label");
  }

  /** `_prop` holds no `__` and is renamed to `prop`. */
  lemma PropName()
    ensures !HasDoubleUnderscore("_prop") && DropFirst("_prop") == "prop"
  {
    PrefixedName("_prop");
  }

  /** `_computed` holds no `__` and is renamed to `computed`. */
  lemma ComputedName()
    ensures !HasDoubleUnderscore("_computed") && DropFirst("_computed") == "computed"
  {
    PrefixedName("_computed");
  }

  /** `_meta` holds no `__` and is renamed to `meta`. */
  lemma MetaName()
    ensures !HasDoubleUnderscore("_meta") && DropFirst("_meta") == "meta"
  {
    PrefixedName("_meta");
  }

  /** A name that starts with `__` holds `__`. */
  lemma LeadingPair(k: string)
    requires |k| >= 2 && k[0] == '_' && k[1] == '_'
    ensures HasDoubleUnderscore(k)
  {
  }

  /** A name with no underscore after its first character holds no `__`. */
  lemma PrefixedName(k: string)
    requires forall i :: 1 <= i < |k| ==> k[i] != '_'
    ensures !HasDoubleUnderscore(k)
  {
    HasDoubleUnderscoreAt(k);
  }

  /**
   * `persist` throws for a parent graph without a label and otherwise serialises
   * the component, `id` taken from the label for a graph; it pushes into the
   * open bulk area and returns nothing, or calls the RPC.
   */
  lemma PersistPayload(c: Component)
    requires Truthy(ParentLabel(c))
    ensures var p := Persist(c);
            var id := if c.ctype == Str("g") then c.labelValue else c.id;
            var obj := map["id" := id, "label" := c.labelValue, "prop" := Object(c.prop),
                           "computed" := ComputedObject(c), "meta" := Object(c.meta)];
            var msg := PersistMsg(ParentLabel(c), c.ctype, obj);
            && p.state == c.(id := id)
            && (ParentBulkOpen(c) == Some(true) ==> p.outcome == Returns(Pushed("ex_persist", msg)))
            && (ParentBulkOpen(c) == Some(false) ==> p.outcome == Returns(Called("ex_persist", msg)))
            && (ParentBulkOpen(c).None? ==> p.outcome == Throws(NoConnection))
  {
    var s := Persist(c).state;
    SerializeComponent(s);
    assert ComputedObject(s) == ComputedObject(c);
  }

  /**
   * `destroy` with the bulk area open pushes its message and returns nothing;
   * the payload is chosen first, so a missing id still throws.
   */
  lemma DestroyBulkOpen(c: Component, cmp: JsValue, ftr: JsValue, getFilters: JsValue -> JsValue, validCmp: JsValue -> bool)
    requires ParentBulkOpen(c) == Some(true)
    ensures var r := Destroy(c, cmp, ftr, getFilters, validCmp);
            r.Returns? ==> r.value.Pushed? && r.value.apiFunc == "ex_destroy"
    ensures !(c.ctype == Str("g") && Truthy(cmp)) && !Truthy(c.id) ==> Destroy(c, cmp, ftr, getFilters, validCmp) == Throws(IdRequired)
  {
  }

  /** A graph destroying by type passes the filter `getFilters` extracted, and the filter as given when it is falsy. */
  lemma DestroyByTypeFilter(c: Component, cmp: JsValue, ftr: JsValue, getFilters: JsValue -> JsValue, validCmp: JsValue -> bool)
    requires c.ctype == Str("g") && cmp.Str? && cmp.s != "" && validCmp(cmp) && ParentBulkOpen(c).Some?
    ensures var r := Destroy(c, cmp, ftr, getFilters, validCmp);
            && r.Returns?
            && r.value.msg == DestroyByType(ParentLabel(c), Lower(cmp.s), if Truthy(ftr) then getFilters(ftr) else ftr)
  {
  }

  /** `toLowerCase` maps each character on its own. */
  lemma {:induction false} LowerAt(s: string)
    ensures forall i :: 0 <= i < |s| ==> Lower(s)[i] == LowerChar(s[i])
    decreases |s|
  {
    if s != [] {
      LowerAt(s[1..]);
      forall i | 0 <= i < |s| ensures Lower(s)[i] == LowerChar(s[i]) {
        if i > 0 {
          assert Lower(s)[i] == Lower(s[1..])[i - 1];
        }
      }
    }
  }

  /** A lowered string has no upper-case letter left, and lowering it again changes nothing. */
  lemma LowerIdempotent(s: string)
    ensures forall i :: 0 <= i < |s| ==> !('A' <= Lower(s)[i] <= 'Z')
    ensures Lower(Lower(s)) == Lower(s)
  {
    LowerAt(s);
    LowerAt(Lower(s));
  }

  /** A component built without a parent graph is its own parent: its own label is the one `persist` and `destroy` send. */
  lemma NewIsOwnParent(param: Param, ctype: JsValue, ref: string, conn: Option<bool>)
    ensures var c := New(param, ctype, None, ref, conn);
            ParentLabel(c) == c.labelValue && ParentBulkOpen(c) == conn
    ensures !Truthy(param.labelValue) ==> Persist(New(param, ctype, None, ref, conn)).outcome == Throws(LabelRequired)
  {
  }
}
