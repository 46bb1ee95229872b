/** `_flatten_kwargs` of winwifi/utils.py: a keyword mapping flattened into
    the space-separated text `k1 v1 k2 v2 ...`. A Python dict is modelled by
    the sequence of its items in insertion order. */
module Utils {
  import opened PyText

  /** One item of the flattening, Python's `'%s %s' % (k, v)`. */
  function Item(k: string, v: string): string {
    k + " " + v
  }

  /** The items of the flattening, in insertion order. */
  function Items(kwargs: seq<(string, string)>): (r: seq<string>)
    ensures |r| == |kwargs|
  {
    if kwargs == [] then [] else [Item(kwargs[0].0, kwargs[0].1)] + Items(kwargs[1..])
  }

  /** `' '.join('%s %s' % (k, v) for (k, v) in kwargs.items())` */
  function FlattenKwargs(kwargs: seq<(string, string)>): (r: string)
    ensures kwargs == [] ==> r == ""
    ensures |kwargs| == 1 ==> r == kwargs[0].0 + " " + kwargs[0].1
  {
    Join(Items(kwargs), " ")
  }

  /** The words the flattening is made of: k1, v1, k2, v2, ... */
  function Words(kwargs: seq<(string, string)>): (r: seq<string>)
    ensures |r| == 2 * |kwargs|
  {
    if kwargs == [] then [] else [kwargs[0].0, kwargs[0].1] + Words(kwargs[1..])
  }

  /** Appending a pair appends one space and `k v`. */
  lemma FlattenSnoc(kwargs: seq<(string, string)>, k: string, v: string)
    requires |kwargs| >= 1
    ensures FlattenKwargs(kwargs + [(k, v)]) == FlattenKwargs(kwargs) + " " + k + " " + v
  {
    ItemsSnoc(kwargs, k, v);
    JoinSnoc(Items(kwargs), Item(k, v), " ");
  }

  lemma {:induction false} ItemsSnoc(kwargs: seq<(string, string)>, k: string, v: string)
    ensures Items(kwargs + [(k, v)]) == Items(kwargs) + [Item(k, v)]
    decreases |kwargs|
  {
    if kwargs == [] {
      assert Items([(k, v)]) == [Item(k, v)] + Items([]);
    } else {
      assert (kwargs + [(k, v)])[1..] == kwargs[1..] + [(k, v)];
      ItemsSnoc(kwargs[1..], k, v);
    }
  }

  /** The two-entry mapping of the unit test flattens in insertion order. */
  lemma FlattenTwoEntries()
    ensures FlattenKwargs([("key1", "val1"), ("key2", "val2")]) == "key1 val1 key2 val2"
  {
    FlattenSnoc([("key1", "val1")], "key2", "val2");
    assert [("key1", "val1")] + [("key2", "val2")] == [("key1", "val1"), ("key2", "val2")];
  }

  /** The flattening is the space-join of its words. */
  lemma {:induction false} FlattenJoinsWords(kwargs: seq<(string, string)>)
    ensures FlattenKwargs(kwargs) == Join(Words(kwargs), " ")
    decreases |kwargs|
  {
    if |kwargs| > 1 {
      var rest := kwargs[1..];
      FlattenJoinsWords(rest);
      var (k, v) := kwargs[0];
      assert Items(kwargs) == [Item(k, v)] + Items(rest);
      assert Items(kwargs)[1..] == Items(rest);
      var w := Words(rest);
      assert Words(kwargs) == [k, v] + w;
      assert ([k, v] + w)[1..] == [v] + w;
      assert ([v] + w)[1..] == w;
    } else if |kwargs| == 1 {
      assert Words(kwargs) == [kwargs[0].0, kwargs[0].1];
      assert [kwargs[0].0, kwargs[0].1][1..] == [kwargs[0].1];
    }
  }

  /** When no key or value contains a space, splitting the flattening on
      spaces recovers every key and value in insertion order. */
  lemma FlattenSplitsIntoWords(kwargs: seq<(string, string)>)
    requires |kwargs| >= 1
    requires forall i :: 0 <= i < |kwargs| ==> ' ' !in kwargs[i].0 && ' ' !in kwargs[i].1
    ensures Split(FlattenKwargs(kwargs), " ") == Words(kwargs)
  {
    FlattenJoinsWords(kwargs);
    WordsAvoid(kwargs, ' ');
    SplitJoin(Words(kwargs), ' ');
  }

  lemma {:induction false} WordsAvoid(kwargs: seq<(string, string)>, c: char)
    requires forall i :: 0 <= i < |kwargs| ==> c !in kwargs[i].0 && c !in kwargs[i].1
    ensures forall w :: w in Words(kwargs) ==> c !in w
    decreases |kwargs|
  {
    if kwargs != [] {
      WordsAvoid(kwargs[1..], c);
      forall w | w in Words(kwargs) ensures c !in w {
        assert w in [kwargs[0].0, kwargs[0].1] || w in Words(kwargs[1..]);
      }
    }
  }
}
