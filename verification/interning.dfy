/**
 * The name interning both biogrid converters share: a table `h` from a name to
 * its vertex number, and the counter `currentVertex` that hands out the next
 * number, starting from 1.
 */
module Interning {
  import Decimal

  /** The result of looking a name up: the table and counter after the lookup, the name's number, and whether it was new. */
  datatype Lookup = Lookup(h: map<string, nat>, current: nat, id: nat, isNew: bool)

  /**
   * `h.hasOwnProperty(n)`: reuse the name's number; otherwise give it the
   * counter's value and advance the counter.
   */
  function Intern(h: map<string, nat>, current: nat, n: string): (r: Lookup)
    ensures r.isNew <==> n !in h
    ensures n in r.h && r.h[n] == r.id
    ensures !r.isNew ==> r.h == h && r.current == current
    ensures r.isNew ==> r.id == current && r.current == current + 1 && r.h.Keys == h.Keys + {n}
    ensures forall m :: m in h ==> m in r.h && r.h[m] == h[m]
  {
    if n in h then Lookup(h, current, h[n], false)
    else Lookup(h[n := current], current + 1, current, true)
  }

  /** The names seen so far in order of first appearance, after seeing `n`. */
  function AddName(order: seq<string>, n: string): (r: seq<string>)
    ensures n in r
    ensures forall m :: m in r <==> m in order || m == n
    ensures |r| >= |order| && r[..|order|] == order
  {
    if n in order then order else order + [n]
  }

  /** No name occurs twice. */
  ghost predicate Distinct(order: seq<string>) {
    forall i, j :: 0 <= i < j < |order| ==> order[i] != order[j]
  }

  /**
   * The table numbers the names of `order` by position, from 1, and holds no
   * other name; the counter is the next number.
   */
  ghost predicate Interns(h: map<string, nat>, current: nat, order: seq<string>) {
    && current == |order| + 1
    && |h| == |order|
    && (forall i :: 0 <= i < |order| ==> order[i] in h && h[order[i]] == i + 1)
    && (forall m :: m in h ==> m in order)
  }

  /** Looking a name up keeps the table numbering the names in order of first appearance. */
  lemma InternKeeps(h: map<string, nat>, current: nat, order: seq<string>, n: string)
    requires Interns(h, current, order)
    ensures var r := Intern(h, current, n);
            && Interns(r.h, r.current, AddName(order, n))
            && (r.isNew <==> n !in order)
  {
    var r := Intern(h, current, n);
    var order' := AddName(order, n);
    if n !in h {
      assert n !in order;
      assert order' == order + [n];
      forall i | 0 <= i < |order'|
        ensures order'[i] in r.h && r.h[order'[i]] == i + 1
      {
        if i < |order| {
          assert order'[i] == order[i];
        }
      }
    } else {
      assert n in order by {
        assert n in h;
      }
    }
  }

  /** The starting table interns nothing. */
  lemma StartInterns()
    ensures Interns(map[], 1, [])
  {
  }

  /**
   * What the table promises: the names are distinct, every name has a number in
   * `1 .. current - 1`, the name at that position, and different names have
   * different numbers.
   */
  lemma {:induction false} InternsNumbering(h: map<string, nat>, current: nat, order: seq<string>)
    requires Interns(h, current, order)
    ensures Distinct(order)
    ensures forall m :: m in h ==> 1 <= h[m] < current && order[h[m] - 1] == m
    ensures forall a, b :: a in h && b in h && a != b ==> h[a] != h[b]
  {
    forall m | m in h
      ensures 1 <= h[m] < current && order[h[m] - 1] == m
    {
      var i :| 0 <= i < |order| && order[i] == m;
      assert h[order[i]] == i + 1;
    }
  }

  /**
   * The names of a list of `(source, destination)` pairs in order of first
   * appearance, the source of a pair before its destination: the order in which
   * the converters number their vertices.
   */
  function OrderOf(ends: seq<(string, string)>): (order: seq<string>)
    decreases |ends|
  {
    if ends == [] then []
    else
      var last := ends[|ends| - 1];
      AddName(AddName(OrderOf(ends[..|ends| - 1]), last.0), last.1)
  }

  /** Some pair names `n`. */
  ghost predicate Mentions(ends: seq<(string, string)>, n: string) {
    exists i :: 0 <= i < |ends| && (ends[i].0 == n || ends[i].1 == n)
  }

  /** The ordered names are exactly the names of the pairs. */
  lemma {:induction false} OrderOfMembers(ends: seq<(string, string)>, n: string)
    ensures n in OrderOf(ends) <==> Mentions(ends, n)
    decreases |ends|
  {
    if ends != [] {
      var init := ends[..|ends| - 1];
      var last := ends[|ends| - 1];
      assert init + [last] == ends;
      OrderOfMembers(init, n);
      OrderOfSnoc(init, last);
      MentionsSnoc(init, last, n);
      var o := OrderOf(init);
      assert OrderOf(ends) == AddName(AddName(o, last.0), last.1);
      assert n in AddName(o, last.0) <==> n in o || n == last.0;
    }
  }

  /** A list with one more pair names what the shorter list names, and that pair's two names. */
  lemma MentionsSnoc(ends: seq<(string, string)>, e: (string, string), n: string)
    ensures Mentions(ends + [e], n) <==> Mentions(ends, n) || e.0 == n || e.1 == n
  {
    var ends' := ends + [e];
    if Mentions(ends, n) {
      var i :| 0 <= i < |ends| && (ends[i].0 == n || ends[i].1 == n);
      assert ends'[i] == ends[i];
    }
    if e.0 == n || e.1 == n {
      assert ends'[|ends|] == e;
    }
    if Mentions(ends', n) {
      var i :| 0 <= i < |ends'| && (ends'[i].0 == n || ends'[i].1 == n);
      if i < |ends| {
        assert ends[i] == ends'[i];
      }
    }
  }

  /** One more pair extends the order by its new names. */
  lemma OrderOfSnoc(ends: seq<(string, string)>, e: (string, string))
    ensures OrderOf(ends + [e]) == AddName(AddName(OrderOf(ends), e.0), e.1)
  {
    assert (ends + [e])[..|ends|] == ends;
  }

  /**
   * A JSON object keyed by the decimal text of the numbers `1 .. |vals|`, the
   * key of `k` holding `vals[k - 1]`, and no other key.
   */
  ghost predicate Numbered<V>(obj: map<string, V>, vals: seq<V>) {
    && (forall k :: 1 <= k <= |vals| ==> Decimal.NatToDecimal(k) in obj && obj[Decimal.NatToDecimal(k)] == vals[k - 1])
    && (forall key :: key in obj ==> exists k :: 1 <= k <= |vals| && key == Decimal.NatToDecimal(k))
  }

  /** Storing a value under the next number's text keeps the object numbered: no earlier entry is overwritten. */
  lemma NumberedAdd<V>(obj: map<string, V>, vals: seq<V>, x: V)
    requires Numbered(obj, vals)
    ensures Numbered(obj[Decimal.NatToDecimal(|vals| + 1) := x], vals + [x])
  {
    var next := Decimal.NatToDecimal(|vals| + 1);
    var obj' := obj[next := x];
    var vals' := vals + [x];
    forall k | 1 <= k <= |vals'|
      ensures Decimal.NatToDecimal(k) in obj' && obj'[Decimal.NatToDecimal(k)] == vals'[k - 1]
    {
      if k <= |vals| {
        TextsDiffer(k, |vals| + 1);
        assert vals'[k - 1] == vals[k - 1];
      } else {
        assert k == |vals| + 1 && vals'[k - 1] == x;
      }
    }
    forall key | key in obj'
      ensures exists k :: 1 <= k <= |vals'| && key == Decimal.NatToDecimal(k)
    {
      if key == next {
        assert 1 <= |vals| + 1 <= |vals'| && key == Decimal.NatToDecimal(|vals| + 1);
      } else {
        var k :| 1 <= k <= |vals| && key == Decimal.NatToDecimal(k);
        assert 1 <= k <= |vals'|;
      }
    }
  }

  /** Different numbers have different decimal texts. */
  lemma TextsDiffer(a: nat, b: nat)
    requires a != b
    ensures Decimal.NatToDecimal(a) != Decimal.NatToDecimal(b)
  {
    Decimal.NatRoundTrip(a);
    Decimal.NatRoundTrip(b);
  }

  /** A non-empty list is its front followed by its last element. */
  lemma SplitLast<T>(s: seq<T>)
    requires s != []
    ensures s == s[..|s| - 1] + [s[|s| - 1]]
  {
  }
}
