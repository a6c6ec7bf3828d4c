/** `groupByName` (src/services/group.ts:35-42): the item list of a group,
    bucketed into a dictionary by a key read from each item.

    The dictionary is a JavaScript object, modelled as a list of buckets in
    the order their keys were first seen. That is the object's key order for
    keys that are not integer-like (integer-like keys are listed first, in
    ascending order), and the as-written key "undefined" is such a key. Keys
    that name a property of `Object.prototype`, such as "constructor", are
    not modelled: for them `groups[k] || []` is not an array. */
module Grouping {
  import opened GroupSchema

  /** One property of the dictionary: a key and the items pushed under it. */
  datatype Bucket = Bucket(key: string, items: seq<Item>)

  /** The key the source reads, `item.group`. An item has no `group` field
      (src/models/group.ts:46-54), so the property name is always the string
      "undefined". */
  function GroupField(item: Item): string
  {
    "undefined"
  }

  /** The key the function's name promises: the item's name. */
  function NameField(item: Item): string
  {
    item.name
  }

  /** The index of the bucket with key `k`, or `|groups|` when there is
      none (`groups[k]`). */
  function Find(groups: seq<Bucket>, k: string): (i: nat)
    ensures i <= |groups|
    ensures i < |groups| ==> groups[i].key == k
    ensures i == |groups| ==> forall j :: 0 <= j < |groups| ==> groups[j].key != k
  {
    if groups == [] then 0
    else if groups[0].key == k then 0
    else 1 + Find(groups[1..], k)
  }

  /** One step of the reduce: push `item` onto the bucket for `k`, opening a
      new bucket at the end when there is none yet. */
  function Push(groups: seq<Bucket>, k: string, item: Item): (r: seq<Bucket>)
    ensures |groups| <= |r| <= |groups| + 1
    ensures forall j :: 0 <= j < |groups| ==> r[j].key == groups[j].key
    ensures exists j :: 0 <= j < |r| && r[j].key == k
  {
    var i := Find(groups, k);
    if i == |groups| then
      var r := groups + [Bucket(k, [item])];
      assert r[|groups|].key == k;
      r
    else groups[i := Bucket(k, groups[i].items + [item])]
  }

  /** The dictionary after reducing over `items` from the left. */
  function Grouped(items: seq<Item>, key: Item -> string): (r: seq<Bucket>)
    ensures |r| <= |items|
    ensures r == [] <==> items == []
  {
    if items == [] then []
    else Push(Grouped(items[..|items| - 1], key), key(items[|items| - 1]), items[|items| - 1])
  }

  /** The items with key `k`, in input order. */
  function Select(items: seq<Item>, key: Item -> string, k: string): seq<Item>
  {
    if items == [] then []
    else Select(items[..|items| - 1], key, k) + (if key(items[|items| - 1]) == k then [items[|items| - 1]] else [])
  }

  /** `groupByName`: the accumulator is updated item by item, exactly as
      the reduce callback does (read the bucket or start an empty one, push,
      store it back under the key). */
  method GroupBy(items: seq<Item>, key: Item -> string) returns (groups: seq<Bucket>)
    ensures groups == Grouped(items, key)
  {
    groups := [];
    for n := 0 to |items|
      invariant groups == Grouped(items[..n], key)
    {
      var item := items[n];
      var k := key(item);
      GroupedExtend(items, n, key);
      ghost var next := Push(groups, k, item);
      var i := Find(groups, k);
      var group := if i < |groups| then groups[i].items else [];
      group := group + [item];
      if i < |groups| {
        groups := groups[i := Bucket(k, group)];
      } else {
        assert group == [item];
        groups := groups + [Bucket(k, group)];
      }
      assert groups == next;
    }
    assert items[..|items|] == items;
  }

  /** Reducing over one more item is one more `Push`. */
  lemma GroupedExtend(items: seq<Item>, n: nat, key: Item -> string)
    requires n < |items|
    ensures Grouped(items[..n + 1], key) == Push(Grouped(items[..n], key), key(items[n]), items[n])
  {
    assert items[..n + 1][..n] == items[..n];
  }

  // ---------------------------------------------------------------------
  // What the dictionary holds
  // ---------------------------------------------------------------------

  /** The keys are distinct, every bucket is non-empty and holds exactly
      the items with its key in input order, and every key of an item has a
      bucket. */
  ghost predicate Represents(groups: seq<Bucket>, items: seq<Item>, key: Item -> string)
  {
    && (forall i, j :: 0 <= i < j < |groups| ==> groups[i].key != groups[j].key)
    && (forall i :: 0 <= i < |groups| ==> groups[i].items == Select(items, key, groups[i].key) && groups[i].items != [])
    && (forall n :: 0 <= n < |items| ==> Find(groups, key(items[n])) < |groups|)
  }

  /** Every selected item has the selecting key and comes from the input. */
  lemma {:induction false} SelectKeys(items: seq<Item>, key: Item -> string, k: string)
    ensures forall x :: x in Select(items, key, k) ==> key(x) == k && x in items
  {
    if items != [] {
      var p := items[..|items| - 1];
      SelectKeys(p, key, k);
      assert forall x :: x in p ==> x in items;
    }
  }

  /** Every input item is selected under its own key. */
  lemma {:induction false} SelectContains(items: seq<Item>, key: Item -> string, n: nat)
    requires n < |items|
    ensures items[n] in Select(items, key, key(items[n]))
  {
    var p := items[..|items| - 1];
    if n < |items| - 1 {
      assert p[n] == items[n];
      SelectContains(p, key, n);
    }
  }

  /** No item has key `k` exactly when there are no items selected under
      it. */
  lemma {:induction false} SelectEmpty(items: seq<Item>, key: Item -> string, k: string)
    ensures Select(items, key, k) == [] <==> forall n :: 0 <= n < |items| ==> key(items[n]) != k
  {
    if items != [] {
      var p := items[..|items| - 1];
      SelectEmpty(p, key, k);
      assert forall n :: 0 <= n < |p| ==> p[n] == items[n];
    }
  }

  /** Pushing the next item keeps the dictionary faithful to the longer
      input. */
  lemma {:induction false} PushRepresents(groups: seq<Bucket>, items: seq<Item>, key: Item -> string, item: Item)
    requires Represents(groups, items, key)
    ensures Represents(Push(groups, key(item), item), items + [item], key)
  {
    PushContents(groups, items, key, item);
    PushCovers(groups, items, key, item);
  }

  /** After a push, every bucket holds exactly the items of the longer
      input with its key. */
  lemma {:induction false} PushContents(groups: seq<Bucket>, items: seq<Item>, key: Item -> string, item: Item)
    requires Represents(groups, items, key)
    ensures var g := Push(groups, key(item), item);
            forall j :: 0 <= j < |g| ==> g[j].items == Select(items + [item], key, g[j].key) && g[j].items != []
  {
    var all := items + [item];
    assert all[..|all| - 1] == items;
    var k := key(item);
    var g := Push(groups, k, item);
    forall j | 0 <= j < |g|
      ensures g[j].items == Select(all, key, g[j].key)
    {
      if j == |groups| {
        assert key(all[|all| - 1]) == k;
        assert forall n :: 0 <= n < |items| ==> key(items[n]) != k by {
          forall n | 0 <= n < |items| ensures key(items[n]) != k {
            assert Find(groups, key(items[n])) < |groups|;
          }
        }
        SelectEmpty(items, key, k);
      }
    }
  }

  /** After a push, every key of the longer input has a bucket. */
  lemma {:induction false} PushCovers(groups: seq<Bucket>, items: seq<Item>, key: Item -> string, item: Item)
    requires Represents(groups, items, key)
    ensures var g := Push(groups, key(item), item);
            forall n :: 0 <= n < |items + [item]| ==> Find(g, key((items + [item])[n])) < |g|
  {
    var all := items + [item];
    var k := key(item);
    var i := Find(groups, k);
    var g := Push(groups, k, item);
    forall n | 0 <= n < |all|
      ensures Find(g, key(all[n])) < |g|
    {
      if n < |items| {
        assert all[n] == items[n];
        assert Find(groups, key(items[n])) < |groups|;
        assert g[Find(groups, key(items[n]))].key == key(items[n]);
      } else {
        assert g[if i == |groups| then |groups| else i].key == k;
      }
    }
  }

  /** The dictionary `groupByName` builds represents its input. */
  lemma {:induction false} GroupedRepresents(items: seq<Item>, key: Item -> string)
    ensures Represents(Grouped(items, key), items, key)
  {
    if items != [] {
      var p := items[..|items| - 1];
      var last := items[|items| - 1];
      assert p + [last] == items;
      assert Grouped(items, key) == Push(Grouped(p, key), key(last), last);
      GroupedRepresents(p, key);
      PushRepresents(Grouped(p, key), p, key, last);
    }
  }

  /** The number of items over all buckets. */
  function TotalSize(groups: seq<Bucket>): nat
  {
    if groups == [] then 0 else |groups[0].items| + TotalSize(groups[1..])
  }

  lemma {:induction false} TotalSizeAppend(groups: seq<Bucket>, b: Bucket)
    ensures TotalSize(groups + [b]) == TotalSize(groups) + |b.items|
  {
    if groups != [] {
      assert (groups + [b])[1..] == groups[1..] + [b];
      TotalSizeAppend(groups[1..], b);
    }
  }

  lemma {:induction false} TotalSizeUpdate(groups: seq<Bucket>, i: nat, b: Bucket)
    requires i < |groups|
    ensures TotalSize(groups[i := b]) == TotalSize(groups) - |groups[i].items| + |b.items|
  {
    if i > 0 {
      assert groups[i := b][1..] == groups[1..][i - 1 := b];
      TotalSizeUpdate(groups[1..], i - 1, b);
    }
  }

  /** The bucket sizes add up to the number of input items: nothing is
      lost or counted twice. */
  lemma {:induction false} SizesSumToLength(items: seq<Item>, key: Item -> string)
    ensures TotalSize(Grouped(items, key)) == |items|
  {
    if items != [] {
      var p := items[..|items| - 1];
      var x := items[|items| - 1];
      var g := Grouped(p, key);
      SizesSumToLength(p, key);
      var i := Find(g, key(x));
      if i == |g| {
        TotalSizeAppend(g, Bucket(key(x), [x]));
      } else {
        TotalSizeUpdate(g, i, Bucket(key(x), g[i].items + [x]));
      }
    }
  }

  /** Every input item lies in the bucket of its key and in no other. */
  lemma ExactlyOneBucket(items: seq<Item>, key: Item -> string, n: nat)
    requires n < |items|
    ensures var g := Grouped(items, key);
            var i := Find(g, key(items[n]));
            && i < |g|
            && items[n] in g[i].items
            && forall j :: 0 <= j < |g| && j != i ==> items[n] !in g[j].items
  {
    var g := Grouped(items, key);
    GroupedRepresents(items, key);
    var i := Find(g, key(items[n]));
    SelectContains(items, key, n);
    forall j | 0 <= j < |g| && j != i
      ensures items[n] !in g[j].items
    {
      SelectKeys(items, key, g[j].key);
      if j < i {
        assert g[j].key != g[i].key;
      } else {
        assert g[i].key != g[j].key;
      }
    }
  }

  /** A key has a bucket exactly when some item has that key; no input
      gives no buckets. */
  lemma KeysAreItemKeys(items: seq<Item>, key: Item -> string, k: string)
    ensures Find(Grouped(items, key), k) < |Grouped(items, key)| <==> exists n :: 0 <= n < |items| && key(items[n]) == k
    ensures Grouped(items, key) == [] <==> items == []
  {
    var g := Grouped(items, key);
    GroupedRepresents(items, key);
    SelectEmpty(items, key, k);
    if items != [] {
      assert Find(g, key(items[0])) < |g|;
    }
  }

  /** As written, every item lands in one bucket named "undefined", in
      input order. */
  lemma {:induction false} AsWrittenSingleBucket(items: seq<Item>)
    requires items != []
    ensures Grouped(items, GroupField) == [Bucket("undefined", items)]
  {
    var p := items[..|items| - 1];
    var x := items[|items| - 1];
    assert Grouped(items, GroupField) == Push(Grouped(p, GroupField), "undefined", x);
    if p != [] {
      AsWrittenSingleBucket(p);
      var g := [Bucket("undefined", p)];
      assert Find(g, "undefined") == 0;
      assert Push(g, "undefined", x) == [Bucket("undefined", p + [x])];
      assert p + [x] == items;
    } else {
      assert items == [x];
    }
  }

  /** Keyed by name, as intended, the buckets are the distinct item names,
      each holding exactly the items of that name in input order. */
  lemma GroupedByName(items: seq<Item>)
    ensures var g := Grouped(items, NameField);
            && (forall i, j :: 0 <= i < j < |g| ==> g[i].key != g[j].key)
            && (forall i :: 0 <= i < |g| ==> g[i].items != [] && forall x :: x in g[i].items ==> x.name == g[i].key && x in items)
            && (forall n :: 0 <= n < |items| ==> exists i :: 0 <= i < |g| && g[i].key == items[n].name)
  {
    var g := Grouped(items, NameField);
    GroupedRepresents(items, NameField);
    forall i | 0 <= i < |g|
      ensures forall x :: x in g[i].items ==> x.name == g[i].key && x in items
    {
      SelectKeys(items, NameField, g[i].key);
    }
    forall n | 0 <= n < |items|
      ensures exists i :: 0 <= i < |g| && g[i].key == items[n].name
    {
      assert g[Find(g, NameField(items[n]))].key == items[n].name;
    }
  }
}
