/**
 * The path-addressable value `Tree`: a leaf, an array of trees or a dictionary of trees,
 * read and written by a path of array-index or dictionary-key steps.
 */
module Trees {
  import opened Wrappers

  /** One step of a path, `EitherType<Int, Key>`: an array index or a dictionary key. */
  datatype Index<K> = I(i: int) | K(key: K)

  datatype Tree<K(==), V> =
    | Leaf(leaf: V)
    | Array(items: seq<Tree<K, V>>)
    | Dictionary(entries: map<K, Tree<K, V>>)

  /** `Tree.empty`, which is also what `init()` and the nil literal produce: a dictionary with no entry. */
  function Empty<K(==), V>(): (r: Tree<K, V>)
    ensures r.Dictionary? && |r.entries| == 0
  {
    Dictionary(map[])
  }

  /** The empty tree holds nothing at any non-empty path, and is itself at the empty path. */
  lemma EmptyHoldsNothing<K, V>(path: seq<Index<K>>)
    ensures path == [] ==> Get(Empty<K, V>(), path) == Some(Empty())
    ensures path != [] ==> Get(Empty<K, V>(), path) == None
  {
  }

  /**
   * The path getter. An empty path yields the tree itself and a leaf absorbs any
   * further steps; an array needs an in-range index step, a dictionary a present
   * key step, and anything else yields None.
   */
  function Get<K(==), V>(t: Tree<K, V>, path: seq<Index<K>>): (r: Option<Tree<K, V>>)
    ensures path == [] ==> r == Some(t)
    ensures t.Leaf? ==> r == Some(t)
    decreases |path|
  {
    if path == [] then Some(t)
    else
      match t
      case Leaf(_) => Some(t)
      case Array(o) =>
        if path[0].I? && 0 <= path[0].i < |o| then Get(o[path[0].i], path[1..]) else None
      case Dictionary(o) =>
        if path[0].K? && path[0].key in o then Get(o[path[0].key], path[1..]) else None
  }

  /** The defaulted getters `self[path, default: o]`: the found subtree, else `o`. */
  function GetOrDefault<K(==), V>(t: Tree<K, V>, path: seq<Index<K>>, o: Tree<K, V>): (r: Tree<K, V>)
    ensures Get(t, path).Some? ==> r == Get(t, path).value
    ensures Get(t, path).None? ==> r == o
  {
    Get(t, path).GetOr(o)
  }

  /** Reading an array: a key step or an index outside the array misses; an index inside descends. */
  lemma GetArray<K, V>(o: seq<Tree<K, V>>, step: Index<K>, rest: seq<Index<K>>)
    ensures step.K? ==> Get(Array(o), [step] + rest) == None
    ensures step.I? && !(0 <= step.i < |o|) ==> Get(Array(o), [step] + rest) == None
    ensures step.I? && 0 <= step.i < |o| ==> Get(Array(o), [step] + rest) == Get(o[step.i], rest)
  {
    assert ([step] + rest)[1..] == rest;
  }

  /** Reading a dictionary: an index step or an absent key misses; a present key descends. */
  lemma GetDictionary<K, V>(o: map<K, Tree<K, V>>, step: Index<K>, rest: seq<Index<K>>)
    ensures step.I? ==> Get(Dictionary(o), [step] + rest) == None
    ensures step.K? && step.key !in o ==> Get(Dictionary(o), [step] + rest) == None
    ensures step.K? && step.key in o ==> Get(Dictionary(o), [step] + rest) == Get(o[step.key], rest)
  {
    assert ([step] + rest)[1..] == rest;
  }

  /**
   * Reading along `p + q` is reading along `p` and then, if something was found,
   * along `q` from there.
   */
  lemma {:induction false} GetCompose<K, V>(t: Tree<K, V>, p: seq<Index<K>>, q: seq<Index<K>>)
    ensures Get(t, p + q) == match Get(t, p) case None => None case Some(s) => Get(s, q)
    decreases |p|
  {
    if p == [] {
      assert p + q == q;
    } else if t.Leaf? {
    } else {
      assert (p + q)[0] == p[0];
      assert (p + q)[1..] == p[1..] + q;
      match t
      case Array(o) =>
        if p[0].I? && 0 <= p[0].i < |o| {
          GetCompose(o[p[0].i], p[1..], q);
        }
      case Dictionary(o) =>
        if p[0].K? && p[0].key in o {
          GetCompose(o[p[0].key], p[1..], q);
        }
    }
  }

  /**
   * The path setter as written: only the empty path is handled, replacing the tree
   * (an absent value becomes `Tree.empty`); any other path leaves the tree as it was.
   */
  function Put<K(==), V>(t: Tree<K, V>, path: seq<Index<K>>, v: Option<Tree<K, V>>): (r: Tree<K, V>)
    ensures path == [] ==> r == v.GetOr(Empty())
    ensures path != [] ==> r == t
  {
    if path == [] then v.GetOr(Empty()) else t
  }

  /** A write under a key of the empty tree is lost: reading it back finds nothing. */
  lemma PutDropsNestedWrite<K, V>(k: K, x: Tree<K, V>)
    ensures Get(Put(Empty(), [K(k)], Some(x)), [K(k)]) == None
  {
  }

  /** No step of the path is a negative array index. */
  predicate Writable<K(==)>(path: seq<Index<K>>) {
    forall j :: 0 <= j < |path| && path[j].I? ==> path[j].i >= 0
  }

  /**
   * The setter with the intermediate containers created: a key step turns anything but a
   * dictionary into an empty dictionary and descends into the key (empty if absent); an index
   * step turns anything but an array into an empty array, pads it with empty trees up to the
   * index and descends into that element. A negative index has no element to write to.
   */
  function Write<K(==), V>(t: Tree<K, V>, path: seq<Index<K>>, v: Option<Tree<K, V>>): Tree<K, V>
    decreases |path|
  {
    if path == [] then v.GetOr(Empty())
    else
      match path[0]
      case K(k) =>
        var d := if t.Dictionary? then t.entries else map[];
        Dictionary(d[k := Write(if k in d then d[k] else Empty(), path[1..], v)])
      case I(i) =>
        if i < 0 then t
        else
          var a := if t.Array? then t.items else [];
          var padded := if i < |a| then a else a + seq(i + 1 - |a|, _ => Empty());
          Array(padded[i := Write(padded[i], path[1..], v)])
  }

  /** Whatever is written at a path is what is read back there. */
  lemma {:induction false} WriteThenGet<K, V>(t: Tree<K, V>, path: seq<Index<K>>, v: Option<Tree<K, V>>)
    requires Writable(path)
    ensures Get(Write(t, path, v), path) == Some(v.GetOr(Empty()))
    decreases |path|
  {
    if path != [] {
      assert Writable(path[1..]) by {
        forall j | 0 <= j < |path[1..]| && path[1..][j].I? ensures path[1..][j].i >= 0 {
          assert path[1..][j] == path[j + 1];
        }
      }
      match path[0]
      case K(k) =>
        var d := if t.Dictionary? then t.entries else map[];
        WriteThenGet(if k in d then d[k] else Empty(), path[1..], v);
      case I(i) =>
        var a := if t.Array? then t.items else [];
        var padded := if i < |a| then a else a + seq(i + 1 - |a|, _ => Empty());
        WriteThenGet(padded[i], path[1..], v);
    }
  }

  /** A second write at the same path overrides the first completely. */
  lemma {:induction false} WriteTwice<K, V>(t: Tree<K, V>, path: seq<Index<K>>, a: Option<Tree<K, V>>, b: Option<Tree<K, V>>)
    ensures Write(Write(t, path, a), path, b) == Write(t, path, b)
    decreases |path|, 1
  {
    if path != [] {
      match path[0]
      case K(k) => WriteTwiceKey(t, path, k, a, b);
      case I(i) => WriteTwiceIndex(t, path, i, a, b);
    }
  }

  lemma {:induction false} WriteTwiceKey<K, V>(t: Tree<K, V>, path: seq<Index<K>>, k: K, a: Option<Tree<K, V>>, b: Option<Tree<K, V>>)
    requires path != [] && path[0] == K(k)
    ensures Write(Write(t, path, a), path, b) == Write(t, path, b)
    decreases |path|, 0
  {
    var rest := path[1..];
    var d := if t.Dictionary? then t.entries else map[];
    var child := if k in d then d[k] else Empty();
    var written := Write(child, rest, a);
    WriteTwice(child, rest, a, b);
    assert d[k := written][k := Write(written, rest, b)] == d[k := Write(child, rest, b)];
  }

  lemma {:induction false} WriteTwiceIndex<K, V>(t: Tree<K, V>, path: seq<Index<K>>, i: int, a: Option<Tree<K, V>>, b: Option<Tree<K, V>>)
    requires path != [] && path[0] == I(i)
    ensures Write(Write(t, path, a), path, b) == Write(t, path, b)
    decreases |path|, 0
  {
    if i >= 0 {
      var rest := path[1..];
      var arr := if t.Array? then t.items else [];
      var padded := if i < |arr| then arr else arr + seq(i + 1 - |arr|, _ => Empty());
      var written := Write(padded[i], rest, a);
      WriteTwice(padded[i], rest, a, b);
      assert padded[i := written][i := Write(written, rest, b)] == padded[i := Write(padded[i], rest, b)];
    }
  }

  /** `==`: same variant and equal contents, compared element by element with `==` itself. */
  function Equal<K(==), V(==)>(lhs: Tree<K, V>, rhs: Tree<K, V>): (r: bool)
    ensures r ==> (lhs.Leaf? <==> rhs.Leaf?) && (lhs.Array? <==> rhs.Array?) && (lhs.Dictionary? <==> rhs.Dictionary?)
    ensures r && lhs.Leaf? ==> lhs.leaf == rhs.leaf
  {
    match (lhs, rhs)
    case (Leaf(l), Leaf(r)) => l == r
    case (Array(l), Array(r)) => |l| == |r| && forall i :: 0 <= i < |l| ==> Equal(l[i], r[i])
    case (Dictionary(l), Dictionary(r)) => l.Keys == r.Keys && forall k :: k in l ==> Equal(l[k], r[k])
    case _ => false
  }

  /** `==` is structural identity: it holds exactly of identical trees, so never across variants. */
  lemma {:induction false} EqualIsIdentity<K, V>(lhs: Tree<K, V>, rhs: Tree<K, V>)
    ensures Equal(lhs, rhs) <==> lhs == rhs
    ensures lhs.Leaf? != rhs.Leaf? || lhs.Array? != rhs.Array? ==> !Equal(lhs, rhs)
  {
    match (lhs, rhs)
    case (Array(l), Array(r)) =>
      if |l| == |r| {
        forall i | 0 <= i < |l| ensures Equal(l[i], r[i]) <==> l[i] == r[i] {
          EqualIsIdentity(l[i], r[i]);
        }
        if Equal(lhs, rhs) {
          assert l == r;
        }
      }
    case (Dictionary(l), Dictionary(r)) =>
      if l.Keys == r.Keys {
        forall k | k in l ensures Equal(l[k], r[k]) <==> l[k] == r[k] {
          EqualIsIdentity(l[k], r[k]);
        }
        if Equal(lhs, rhs) {
          assert l == r;
        }
      }
    case _ =>
  }
}
