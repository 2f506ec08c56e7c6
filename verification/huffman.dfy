// CreateBinaryTree: the Huffman tree over the word counts, built with the
// two-queue merge over flat arrays, and each word's code and point path.

module Huffman {
  import opened HuffmanSpec

  /** One iteration of the merge loop on the arrays: choose min1i and
      min2i, create node n+a with their summed count, make it their parent
      and give min2i the bit 1. */
  method MergeStep(count: array<int>, binary: array<int>, parent: array<int>, n: nat, a: nat,
                   pos1: int, pos2: int, ghost f: Forest)
    returns (p1: int, p2: int)
    requires count != binary && count != parent && binary != parent
    requires count.Length == binary.Length && count.Length == parent.Length
    requires count[..] == f.count && binary[..] == f.binary && parent[..] == f.parent
    requires pos1 == f.pos1 && pos2 == f.pos2
    requires Ready(f, n, a)
    modifies count, binary, parent
    ensures count[..] == MergeOnce(f, n, a).count
    ensures binary[..] == MergeOnce(f, n, a).binary
    ensures parent[..] == MergeOnce(f, n, a).parent
    ensures p1 == MergeOnce(f, n, a).pos1 && p2 == MergeOnce(f, n, a).pos2
  {
    ghost var g := MergeOnce(f, n, a);
    var r := Choose(count[..], n, n + a, pos1, pos2);
    var min1i, min2i := r.0, r.1;
    p1, p2 := r.2, r.3;
    count[n + a] := count[min1i] + count[min2i];
    assert count[..] == g.count;
    parent[min1i] := n + a;
    assert parent[..] == f.parent[min1i := n + a];
    parent[min2i] := n + a;
    assert parent[..] == g.parent;
    binary[min2i] := 1;
    assert binary[..] == g.binary;
  }

  /** The merge loop (word2vec.c:421-457): n-1 merges, each one the step
      MergeOnce describes, so the loop state is kept throughout. */
  method MergeAll(cn: seq<nat>, count: array<int>, binary: array<int>, parent: array<int>)
    returns (ghost f: Forest)
    requires count != binary && count != parent && binary != parent
    requires count.Length == binary.Length && count.Length == parent.Length
    requires |cn| >= 1 && Sum(cn) < SENTINEL
    requires count[..] == Start(cn).count && binary[..] == Start(cn).binary && parent[..] == Start(cn).parent
    modifies count, binary, parent
    ensures f == AfterMerges(cn, |cn| - 1) && Grown(cn, f, |cn| - 1)
    ensures count[..] == f.count && binary[..] == f.binary && parent[..] == f.parent
  {
    var n := |cn|;
    var pos1, pos2 := n - 1, n;
    f := Start(cn);
    var a := 0;
    while a < n - 1
      invariant a <= n - 1 && f == AfterMerges(cn, a)
      invariant count[..] == f.count && binary[..] == f.binary && parent[..] == f.parent
      invariant pos1 == f.pos1 && pos2 == f.pos2
      modifies count, binary, parent
    {
      MergeOnceGrows(cn, f, a);
      pos1, pos2 := MergeStep(count, binary, parent, n, a, pos1, pos2, f);
      f := MergeOnce(f, n, a);
      a := a + 1;
    }
  }

  /** The first loop of CreateBinaryTree (word2vec.c:396-457): counts copied
      from the leaves, sentinels in the internal slots, then n-1 merges. */
  method BuildTree(cn: seq<nat>)
    returns (count: array<int>, binary: array<int>, parent: array<int>, ghost f: Forest)
    requires |cn| >= 1 && Sum(cn) < SENTINEL
    ensures Grown(cn, f, |cn| - 1)
    ensures count[..] == f.count && binary[..] == f.binary && parent[..] == f.parent
  {
    var n := |cn|;
    count := new int[2 * n + 1](_ => 0);
    binary := new int[2 * n + 1](_ => 0);
    parent := new int[2 * n + 1](_ => 0);
    var a := 0;
    while a < n
      invariant 0 <= a <= n
      invariant forall x :: 0 <= x < a ==> count[x] == cn[x]
      invariant forall x :: n <= x < 2 * n + 1 ==> count[x] == 0
      modifies count
    {
      count[a] := cn[a];
      a := a + 1;
    }
    a := n;
    while a < 2 * n
      invariant n <= a <= 2 * n
      invariant forall x :: 0 <= x < n ==> count[x] == cn[x]
      invariant forall x :: n <= x < a ==> count[x] == SENTINEL
      invariant count[2 * n] == 0
      modifies count
    {
      count[a] := SENTINEL;
      a := a + 1;
    }
    assert count[..] == Start(cn).count;
    assert binary[..] == Start(cn).binary;
    assert parent[..] == Start(cn).parent;
    f := MergeAll(cn, count, binary, parent);
  }

  /** The walk of the second loop of CreateBinaryTree for one leaf: from
      the leaf up the parent links until the root, collecting each visited
      node's bit (`code`) and index (`point`). With one word the leaf is the
      root and still takes one step, through the root's parent slot 0. */
  method WalkUp(binary: array<int>, parent: array<int>, n: nat, a: nat) returns (up: seq<int>, ups: seq<int>)
    requires Tree(parent[..], binary[..], n) && a < n
    ensures |up| == |ups|
    ensures n >= 2 ==> Code(parent[..], binary[..], n, a) == Reverse(up) &&
                       Nodes(parent[..], binary[..], n, a) == [2 * n - 2] + Reverse(ups)
    ensures n == 1 ==> up == [0] && ups == [0]
  {
    var root := 2 * n - 2;
    ghost var pa, bi := parent[..], binary[..];
    up, ups := [], [];
    var b: nat := a;
    while true
      invariant b < |pa|
      invariant n >= 2 ==> b < root
      invariant n >= 2 ==> Code(pa, bi, n, a) == Code(pa, bi, n, b) + Reverse(up)
      invariant n >= 2 ==> Nodes(pa, bi, n, a) == Nodes(pa, bi, n, b) + Reverse(ups)
      invariant n == 1 ==> b == 0 && up == [] && ups == []
      invariant |up| == |ups|
      decreases root - b
    {
      ReverseSnoc(up, binary[b]);
      ReverseSnoc(ups, b);
      up := up + [binary[b]];
      ups := ups + [b];
      b := parent[b];
      if b == root {
        break;
      }
    }
  }

  /** The copy at the end of the second loop: `code` is the collected bits
      reversed, `point` starts with n-2 (the root's offset) and continues
      with the collected nodes reversed, as offsets from n. */
  method StoreReversed(up: seq<int>, ups: seq<int>, n: nat) returns (c: LeafCode)
    requires |up| == |ups|
    ensures c.code == Reverse(up)
    ensures |c.point| == |up| + 1 && c.point[0] == n - 2 && c.point[1..] == Offsets(Reverse(ups), n)
  {
    var i := |up|;
    var code := new int[i];
    var point := new int[i + 1];
    point[0] := n - 2;
    var k := 0;
    while k < i
      invariant 0 <= k <= i
      invariant point[0] == n - 2
      invariant forall j :: 0 <= j < k ==> code[i - j - 1] == up[j]
      invariant forall j :: 0 <= j < k ==> point[i - j] == ups[j] - n
    {
      code[i - k - 1] := up[k];
      point[i - k] := ups[k] - n;
      k := k + 1;
    }
    ghost var offsets := Offsets(Reverse(ups), n);
    forall j | 0 <= j < i
      ensures code[j] == Reverse(up)[j] && point[1..][j] == offsets[j]
    {
      assert i - (i - 1 - j) - 1 == j;
    }
    assert code[..] == Reverse(up);
    assert point[1..] == offsets;
    c := LeafCode(code[..], point[..]);
  }

  /** The second loop of CreateBinaryTree for one leaf: its code is the
      bits on its path from the root, its point the nodes on that path as
      offsets from n. A lone word gets the one-bit code [0] and the point
      [-1, -1]. */
  method ExtractCode(binary: array<int>, parent: array<int>, n: nat, a: nat) returns (c: LeafCode)
    requires Tree(parent[..], binary[..], n) && a < n
    ensures n >= 2 ==> c.code == Code(parent[..], binary[..], n, a) &&
                       c.point == Offsets(Nodes(parent[..], binary[..], n, a), n)
    ensures n == 1 ==> c == LeafCode([0], [-1, -1])
  {
    var up, ups := WalkUp(binary, parent, n, a);
    c := StoreReversed(up, ups, n);
    PointOfPath(c.point, ups, n);
    if n == 1 {
      assert Reverse([0]) == [0] + Reverse([]);
    }
  }

  /** The second loop of CreateBinaryTree (word2vec.c:460-485): every
      leaf in turn gets its code and point. */
  method ExtractAll(binary: array<int>, parent: array<int>, n: nat) returns (codes: seq<LeafCode>)
    requires Tree(parent[..], binary[..], n)
    ensures |codes| == n
    ensures n >= 2 ==> forall a :: 0 <= a < n ==>
              codes[a].code == Code(parent[..], binary[..], n, a) &&
              codes[a].point == Offsets(Nodes(parent[..], binary[..], n, a), n)
    ensures n == 1 ==> codes == [LeafCode([0], [-1, -1])]
  {
    ghost var pa, bi := parent[..], binary[..];
    codes := [];
    var a := 0;
    while a < n
      invariant 0 <= a <= n && |codes| == a
      invariant n >= 2 ==> forall j :: 0 <= j < a ==>
                  codes[j].code == Code(pa, bi, n, j) &&
                  codes[j].point == Offsets(Nodes(pa, bi, n, j), n)
      invariant n == 1 ==> forall j :: 0 <= j < a ==> codes[j] == LeafCode([0], [-1, -1])
    {
      var c := ExtractCode(binary, parent, n, a);
      codes := codes + [c];
      a := a + 1;
    }
  }

  /** CreateBinaryTree (word2vec.c:384-489): build the tree over the word
      counts, then give every word its code and point. */
  method CreateBinaryTree(cn: seq<nat>) returns (codes: seq<LeafCode>, ghost f: Forest)
    requires Sum(cn) < SENTINEL
    ensures |codes| == |cn|
    ensures |cn| >= 1 ==> Grown(cn, f, |cn| - 1) && Tree(f.parent, f.binary, |cn|)
    ensures |cn| >= 1 ==> |f.count| == 2 * |cn| + 1
    ensures |cn| >= 1 ==> Merged(f.count, f.binary, f.parent, |cn|, |cn| - 1, f.first, f.second)
    ensures |cn| >= 1 ==> forall x :: 0 <= x < |cn| ==> f.count[x] == cn[x]
    ensures |cn| >= 1 && Descending(cn) ==>
              forall i, j :: |cn| <= i < j <= 2 * |cn| - 2 ==> f.count[i] <= f.count[j]
    ensures |cn| >= 2 ==> forall a :: 0 <= a < |cn| ==>
              codes[a].code == Code(f.parent, f.binary, |cn|, a) &&
              codes[a].point == Offsets(Nodes(f.parent, f.binary, |cn|, a), |cn|)
    ensures |cn| == 1 ==> codes == [LeafCode([0], [-1, -1])]
    ensures |cn| >= 2 ==> forall a :: 0 <= a < |cn| ==>
              1 <= |codes[a].code| <= |cn| - 1 && |codes[a].point| == |codes[a].code| + 1 &&
              codes[a].point[0] == |cn| - 2
    ensures |cn| >= 2 ==> forall a, b :: 0 <= a < |cn| && 0 <= b < |cn| && a != b ==>
              !(codes[a].code <= codes[b].code)
  {
    var n := |cn|;
    codes := [];
    if n == 0 {
      f := Start(cn);
      return;
    }
    var count, binary, parent;
    count, binary, parent, f := BuildTree(cn);
    MergedTree(cn, f);
    MergedCounts(cn, f);
    codes := ExtractAll(binary, parent, n);
    if n >= 2 {
      LeafCodes(f.parent, f.binary, n, codes);
    }
  }
}
