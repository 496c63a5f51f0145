/**
 * LinqExtensions.cs: indexed ForEach, IsNullOrEmpty, TryGet, Except, Combine and SelectRecursive.
 * A C# `IEnumerable` is a finite sequence here; a null source is `None`.
 */
module LinqExtensions {
  import opened Optional

  /**
   * Indexed ForEach: the counter starts at -1 and is pre-incremented for each item, so the action
   * receives (item, 0), (item, 1), ... in iteration order. The calls made are returned.
   */
  method ForEachIndexed<T>(source: seq<T>) returns (calls: seq<(T, int)>)
    ensures |calls| == |source|
    ensures forall k :: 0 <= k < |calls| ==> calls[k] == (source[k], k)
  {
    var i := -1;
    calls := [];
    for n := 0 to |source|
      invariant i == n - 1
      invariant |calls| == n
      invariant forall k :: 0 <= k < n ==> calls[k] == (source[k], k)
    {
      i := i + 1;
      calls := calls + [(source[n], i)];
    }
  }

  function IsNullOrEmpty<T>(source: Option<seq<T>>): (r: bool)
    ensures r <==> source == None || source == Some([])
  {
    source.None? || |source.value| == 0
  }

  /**
   * TryGet: a null key yields the default and false without any lookup; otherwise the dictionary
   * entry (and true) when the key is present, the default (and false) when it is not.
   */
  function TryGet<K, V>(source: map<K, V>, key: Option<K>, default: V): (r: (bool, V))
    ensures r.0 <==> key.Some? && key.value in source
    ensures r.0 ==> r.1 == source[key.value]
    ensures !r.0 ==> r.1 == default
  {
    match key
    case None => (false, default)
    case Some(k) => if k in source then (true, source[k]) else (false, default)
  }

  /** The number of occurrences of `x` in `s`. */
  function Count<T(==,!new)>(s: seq<T>, x: T): nat {
    if s == [] then 0 else (if s[0] == x then 1 else 0) + Count(s[1..], x)
  }

  /** Except: yields, in order, the items that are not equal to `exception`. */
  function Except<T(==,!new)>(source: seq<T>, exception: T): (r: seq<T>)
    ensures forall x :: x in r <==> x in source && x != exception
    ensures |r| == |source| - Count(source, exception)
  {
    if source == [] then []
    else if source[0] != exception then [source[0]] + Except(source[1..], exception)
    else Except(source[1..], exception)
  }

  /** Except keeps order: filtering a concatenation filters each part. */
  lemma {:induction false} ExceptDistributes<T(!new)>(a: seq<T>, b: seq<T>, e: T)
    ensures Except(a + b, e) == Except(a, e) + Except(b, e)
  {
    if a == [] {
      assert a + b == b;
    } else {
      assert (a + b)[1..] == a[1..] + b;
      ExceptDistributes(a[1..], b, e);
    }
  }

  /** Except leaves a sequence without the exception as it is. */
  lemma {:induction false} ExceptNoOccurrence<T(!new)>(s: seq<T>, e: T)
    requires e !in s
    ensures Except(s, e) == s
  {
    if s != [] {
      ExceptNoOccurrence(s[1..], e);
    }
  }

  /** The in-order concatenation of the arrays' contents. */
  function Concat<T>(parts: seq<seq<T>>): seq<T> {
    if parts == [] then [] else Concat(parts[..|parts| - 1]) + parts[|parts| - 1]
  }

  /** `arrays.Sum(a => a.Length)`. */
  function SumLengths<T>(parts: seq<seq<T>>): nat {
    if parts == [] then 0 else SumLengths(parts[..|parts| - 1]) + |parts[|parts| - 1]|
  }

  /** The concatenation is exactly as long as the summed lengths Combine allocates. */
  lemma {:induction false} ConcatLength<T>(parts: seq<seq<T>>)
    ensures |Concat(parts)| == SumLengths(parts)
  {
    if parts != [] {
      ConcatLength(parts[..|parts| - 1]);
    }
  }

  lemma {:induction false} PrefixSumMonotone<T>(parts: seq<seq<T>>, n: nat)
    requires n <= |parts|
    ensures SumLengths(parts[..n]) <= SumLengths(parts)
  {
    if n < |parts| {
      var last := |parts| - 1;
      assert parts[..last][..n] == parts[..n];
      PrefixSumMonotone(parts[..last], n);
    } else {
      assert parts[..n] == parts;
    }
  }

  /** The contents of each array, as C# sees them when Combine reads them. */
  function Contents(arrays: seq<array<bv8>>): seq<seq<bv8>>
    reads arrays
  {
    seq(|arrays|, k requires 0 <= k < |arrays| reads arrays => arrays[k][..])
  }

  /**
   * Combine: allocates an array of the summed length and block-copies each input at a running
   * offset; the result is the in-order concatenation of the inputs.
   */
  method Combine(arrays: seq<array<bv8>>) returns (bytes: array<bv8>)
    ensures fresh(bytes)
    ensures bytes.Length == SumLengths(Contents(arrays))
    ensures bytes[..] == Concat(Contents(arrays))
  {
    var parts := Contents(arrays);
    bytes := new bv8[SumLengths(parts)];
    var offset := 0;
    for n := 0 to |arrays|
      invariant parts == Contents(arrays)
      invariant offset == SumLengths(parts[..n]) <= bytes.Length
      invariant bytes[..offset] == Concat(parts[..n])
    {
      var part := arrays[n];
      assert parts[..n + 1][..n] == parts[..n];
      PrefixSumMonotone(parts, n + 1);
      ghost var before := bytes[..offset];
      BlockCopy(part, bytes, offset);
      assert bytes[..offset] == before;
      assert bytes[offset..offset + part.Length] == part[..];
      assert bytes[..offset + part.Length] == bytes[..offset] + bytes[offset..offset + part.Length];
      offset := offset + part.Length;
    }
    assert parts[..|arrays|] == parts;
  }

  /** `Buffer.BlockCopy(src, 0, dst, offset, src.Length)`. */
  method BlockCopy(src: array<bv8>, dst: array<bv8>, offset: nat)
    requires src != dst
    requires offset + src.Length <= dst.Length
    modifies dst
    ensures forall k :: 0 <= k < dst.Length && !(offset <= k < offset + src.Length) ==> dst[k] == old(dst[k])
    ensures forall j :: 0 <= j < src.Length ==> dst[offset + j] == src[j]
  {
    for j := 0 to src.Length
      invariant forall k :: 0 <= k < dst.Length && !(offset <= k < offset + j) ==> dst[k] == old(dst[k])
      invariant forall i :: 0 <= i < j ==> dst[offset + i] == src[i]
    {
      dst[offset + j] := src[j];
    }
  }

  /** A node and the children that `select` returns for it; the enumeration is finite and acyclic. */
  datatype Tree<T> = Node(value: T, children: seq<Tree<T>>)

  /** The node itself followed by its descendants, depth first. */
  function PreOrder<T>(t: Tree<T>): seq<T>
    decreases t
  {
    [t.value] + PreOrderAll(t.children)
  }

  /** The pre-orders of a list of sibling trees, one after the other. */
  function PreOrderAll<T>(ts: seq<Tree<T>>): seq<T>
    decreases ts
  {
    if ts == [] then [] else PreOrder(ts[0]) + PreOrderAll(ts[1..])
  }

  /**
   * SelectRecursive: for each child in order, the child and then everything reachable from it;
   * the root itself is not yielded. The root followed by these items is the pre-order traversal.
   */
  function SelectRecursive<T>(t: Tree<T>): (r: seq<T>)
    ensures PreOrder(t) == [t.value] + r
    decreases t
  {
    SelectRecursiveAll(t.children)
  }

  /** The loop over the children: yield the child, then the child's own SelectRecursive, then the rest. */
  function SelectRecursiveAll<T>(cs: seq<Tree<T>>): (r: seq<T>)
    ensures r == PreOrderAll(cs)
    decreases cs
  {
    if cs == [] then [] else [cs[0].value] + SelectRecursive(cs[0]) + SelectRecursiveAll(cs[1..])
  }

  /** Number of nodes in a tree. */
  function Size<T>(t: Tree<T>): nat
    decreases t
  {
    1 + SizeAll(t.children)
  }

  function SizeAll<T>(ts: seq<Tree<T>>): nat
    decreases ts
  {
    if ts == [] then 0 else Size(ts[0]) + SizeAll(ts[1..])
  }

  /** SelectRecursive yields every node of the tree except the root: one fewer than its size. */
  lemma {:induction false} SelectRecursiveExcludesRoot<T>(t: Tree<T>)
    ensures |SelectRecursive(t)| == Size(t) - 1
  {
    AllLengths(t.children);
  }

  lemma {:induction false} AllLengths<T>(ts: seq<Tree<T>>)
    ensures |PreOrderAll(ts)| == SizeAll(ts)
    decreases ts
  {
    if ts != [] {
      AllLengths(ts[0].children);
      AllLengths(ts[1..]);
    }
  }

  /** The first child, when there is one, is the first item yielded. */
  lemma FirstChildFirst<T>(t: Tree<T>)
    requires t.children != []
    ensures SelectRecursive(t) != [] && SelectRecursive(t)[0] == t.children[0].value
  {
    var c := t.children[0];
    assert SelectRecursive(t) == [c.value] + SelectRecursive(c) + SelectRecursiveAll(t.children[1..]);
  }
}
