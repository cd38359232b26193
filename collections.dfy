/** Sequence search and the insertion-ordered `dict[str, str]` of Python. */
module Collections {
  import opened Wrappers

  /** `s.index(x)` when x occurs in s: the first position holding x. */
  function IndexOf<T(==)>(s: seq<T>, x: T): (r: Option<nat>)
    ensures r.Some? ==> r.value < |s| && s[r.value] == x && x !in s[..r.value]
    ensures r.None? <==> x !in s
    decreases |s|
  {
    if s == [] then None
    else if s[0] == x then Some(0)
    else
      match IndexOf(s[1..], x)
      case None => None
      case Some(j) => assert s[1..][..j] == s[1..j + 1]; Some(j + 1)
  }

  /** Appending an element leaves the first position of every element already present unchanged. */
  lemma {:induction false} IndexOfAppend<T>(s: seq<T>, y: T, x: T)
    ensures IndexOf(s + [y], x) == if x in s then IndexOf(s, x) else if x == y then Some(|s|) else None
    decreases |s|
  {
    var t := s + [y];
    if s == [] {
      assert t == [y];
    } else {
      assert t[0] == s[0] && t[1..] == s[1..] + [y];
      IndexOfAppend(s[1..], y, x);
    }
  }

  /**
   * keys holds the items of names, each once, in the order of their first
   * occurrence in names.
   */
  predicate FirstSeenOrder(keys: seq<string>, names: seq<string>) {
    && (forall k :: k in keys ==> k in names)
    && (forall k :: k in names ==> k in keys)
    && forall a, b :: 0 <= a < b < |keys| ==> IndexOf(names, keys[a]).value < IndexOf(names, keys[b]).value
  }

  /** Seeing one more name appends it to the keys if it is new and keeps them otherwise. */
  lemma FirstSeenOrderAppend(keys: seq<string>, names: seq<string>, h: string)
    requires FirstSeenOrder(keys, names)
    ensures FirstSeenOrder(if h in keys then keys else keys + [h], names + [h])
  {
    forall k | k in names + [h] {
      IndexOfAppend(names, h, k);
    }
  }

  predicate DistinctKeys(d: seq<(string, string)>) {
    forall i, j :: 0 <= i < j < |d| ==> d[i].0 != d[j].0
  }

  /** A Python `dict[str, str]`: its items in insertion order, no key twice. */
  type Dict = d: seq<(string, string)> | DistinctKeys(d)

  /** `list(d.keys())` */
  function Keys(d: seq<(string, string)>): seq<string> {
    seq(|d|, i requires 0 <= i < |d| => d[i].0)
  }

  /** `d.get(k)` */
  function Get(d: Dict, k: string): (r: Option<string>)
    ensures r.None? <==> k !in Keys(d)
    ensures r.Some? ==> (k, r.value) in d
  {
    match IndexOf(Keys(d), k)
    case None => None
    case Some(i) => Some(d[i].1)
  }

  /** Every item of a dict is what looking its key up returns. */
  lemma ItemsAreLookups(d: Dict, i: nat)
    requires i < |d|
    ensures Get(d, d[i].0) == Some(d[i].1)
  {
    assert Keys(d)[i] == d[i].0;
    var j := IndexOf(Keys(d), d[i].0).value;
    assert Keys(d)[j] == d[j].0;
  }

  /** `d[k] = v`: a new key goes last, an existing key keeps its place and takes the new value. */
  function Put(d: Dict, k: string, v: string): (r: Dict)
    ensures Get(r, k) == Some(v)
    ensures forall k' :: k' != k ==> Get(r, k') == Get(d, k')
    ensures Keys(r) == if k in Keys(d) then Keys(d) else Keys(d) + [k]
  {
    match IndexOf(Keys(d), k)
    case Some(i) =>
      var r := d[i := (k, v)];
      assert Keys(r) == Keys(d);
      r
    case None =>
      assert forall i :: 0 <= i < |d| ==> Keys(d)[i] == d[i].0;
      var r := d + [(k, v)];
      assert Keys(r) == Keys(d) + [k];
      forall k' {
        IndexOfAppend(Keys(d), k, k');
      }
      r
  }
}
