/**
mir_mem_get_mem_node_dist of src/mir_mem_pol.c: how many bytes of a range lie on which NUMA
node. The node of an address is a parameter; node numbers and the page size are 16-bit words.
*/
module MemDist {
  import opened Wrappers

  /** Bytes of node v in the page-sized steps from offset i on; the last step may be shorter. */
  function Owned(nodeOf: nat -> nat, page: nat, sz: nat, i: nat, v: nat): nat
    requires page > 0
    decreases if i < sz then sz - i else 0
  {
    if i >= sz then 0
    else (if nodeOf(i) == v then Min(page, sz - i) else 0) + Owned(nodeOf, page, sz, i + page, v)
  }

  /** The same over the first n nodes. */
  function OwnedByAll(nodeOf: nat -> nat, page: nat, sz: nat, i: nat, n: nat): nat
    requires page > 0
  {
    if n == 0 then 0 else OwnedByAll(nodeOf, page, sz, i, n - 1) + Owned(nodeOf, page, sz, i, n - 1)
  }

  lemma {:induction false} OneStep(nodeOf: nat -> nat, page: nat, sz: nat, i: nat, n: nat)
    requires page > 0 && i < sz
    ensures OwnedByAll(nodeOf, page, sz, i, n) ==
            OwnedByAll(nodeOf, page, sz, i + page, n) + (if nodeOf(i) < n then Min(page, sz - i) else 0)
  {
    if n > 0 {
      OneStep(nodeOf, page, sz, i, n - 1);
    }
  }

  lemma {:induction false} NothingLeft(nodeOf: nat -> nat, page: nat, sz: nat, i: nat, n: nat)
    requires page > 0 && i >= sz
    ensures OwnedByAll(nodeOf, page, sz, i, n) == 0
  {
    if n > 0 {
      NothingLeft(nodeOf, page, sz, i, n - 1);
    }
  }

  /** Every byte is on exactly one node. */
  lemma {:induction false} BytesPartition(nodeOf: nat -> nat, page: nat, sz: nat, i: nat, n: nat)
    requires page > 0 && forall j: nat :: nodeOf(j) < n
    ensures OwnedByAll(nodeOf, page, sz, i, n) == if i < sz then sz - i else 0
    decreases if i < sz then sz - i else 0
  {
    if i < sz {
      OneStep(nodeOf, page, sz, i, n);
      BytesPartition(nodeOf, page, sz, i + page, n);
    } else {
      NothingLeft(nodeOf, page, sz, i, n);
    }
  }

  /** The start value of new_node is not a node, unless the increment wraps to the node of the address. */
  predicate StartsOnNode(numNodes: nat, node: nat) {
    (numNodes + 1) % UINT16 == node
  }

  lemma StartsOnNodeExactly(numNodes: nat, node: nat)
    requires node < numNodes < UINT16
    ensures StartsOnNode(numNodes, node) <==> numNodes == UINT16 - 1 && node == 0
  {
  }

  function Plus(s: seq<nat>, v: nat, sz: nat): seq<nat>
    requires v < |s|
  {
    s[v := s[v] + sz]
  }

  /** Where the count of node v stands: the run from ifrom to i on `node` is still to be added. */
  predicate Standing(nodeOf: nat -> nat, page: nat, sz: nat, i: nat, ifrom: nat, node: nat,
      was: seq<nat>, now: seq<nat>, v: nat)
    requires page > 0 && v < |was| == |now|
  {
    now[v] + (if v == node then Min(i, sz) - ifrom else 0) + Owned(nodeOf, page, sz, i, v)
    == was[v] + Owned(nodeOf, page, sz, 0, v)
  }

  predicate Running(nodeOf: nat -> nat, page: nat, sz: nat, i: nat, ifrom: nat, node: nat,
      was: seq<nat>, now: seq<nat>)
    requires page > 0
  {
    && |was| == |now| && node < |was| && ifrom < i && ifrom < sz
    && forall v :: 0 <= v < |was| ==> Standing(nodeOf, page, sz, i, ifrom, node, was, now, v)
  }

  lemma RunStarts(nodeOf: nat -> nat, page: nat, sz: nat, was: seq<nat>)
    requires 0 < page < sz && nodeOf(0) < |was|
    ensures Running(nodeOf, page, sz, page, 0, nodeOf(0), was, was)
  {
  }

  /** One page more: the run goes on, or is added and the next begins. */
  lemma RunContinues(nodeOf: nat -> nat, page: nat, sz: nat, i: nat, ifrom: nat, node: nat,
      was: seq<nat>, now: seq<nat>)
    requires 0 < page && i < sz && nodeOf(i) < |was|
    requires Running(nodeOf, page, sz, i, ifrom, node, was, now)
    ensures nodeOf(i) == node ==> Running(nodeOf, page, sz, i + page, ifrom, node, was, now)
    ensures nodeOf(i) != node ==>
      Running(nodeOf, page, sz, i + page, i, nodeOf(i), was, Plus(now, node, i - ifrom))
  {
    var now' := if nodeOf(i) == node then now else Plus(now, node, i - ifrom);
    var ifrom' := if nodeOf(i) == node then ifrom else i;
    var node', i' := nodeOf(i), i + page;
    forall v | 0 <= v < |was|
      ensures Standing(nodeOf, page, sz, i', ifrom', node', was, now', v)
    {
      assert Standing(nodeOf, page, sz, i, ifrom, node, was, now, v);
    }
  }

  /** What the counts have become. */
  predicate Counted(nodeOf: nat -> nat, page: nat, sz: nat, was: seq<nat>, now: seq<nat>)
    requires page > 0
  {
    |was| == |now| && forall v :: 0 <= v < |was| ==> now[v] == was[v] + Owned(nodeOf, page, sz, 0, v)
  }

  lemma RunEnds(nodeOf: nat -> nat, page: nat, sz: nat, i: nat, ifrom: nat, node: nat,
      was: seq<nat>, now: seq<nat>)
    requires 0 < page && i >= sz && Running(nodeOf, page, sz, i, ifrom, node, was, now)
    ensures Counted(nodeOf, page, sz, was, Plus(now, node, sz - ifrom))
  {
    var now' := Plus(now, node, sz - ifrom);
    forall v | 0 <= v < |was|
      ensures now'[v] == was[v] + Owned(nodeOf, page, sz, 0, v)
    {
      assert Standing(nodeOf, page, sz, i, ifrom, node, was, now, v);
    }
  }

  lemma OnePage(nodeOf: nat -> nat, page: nat, sz: nat, was: seq<nat>)
    requires 0 < sz <= page && nodeOf(0) < |was|
    ensures Counted(nodeOf, page, sz, was, Plus(was, nodeOf(0), sz))
  {
  }

  /** When the range fits one page and the start value of new_node is its node, it counts twice. */
  predicate CountsTwice(numNodes: nat, node: nat, page: nat, sz: nat) {
    sz <= page && StartsOnNode(numNodes, node)
  }

  /**
  buf counts bytes per node. The headers are those of the allocation that the address is part
  of and of the address itself, if they have one; each names the node of the whole range.
  With a page of 65536 bytes the 16-bit page size is 0 and the loop does not end.
  */
  method GetMemNodeDist(buf: array<nat>, sz: nat, partHeader: Option<nat>, header: Option<nat>,
      nodeOf: nat -> nat, pageBytes: nat) returns (ends: bool)
    requires sz > 0
    requires forall i: nat :: nodeOf(i) < buf.Length
    requires partHeader.Some? ==> partHeader.value < buf.Length
    requires header.Some? ==> header.value < buf.Length
    modifies buf
    ensures !ends <==> partHeader.None? && header.None? && pageBytes % UINT16 == 0
    ensures !ends ==> buf[..] == old(buf[..])
    ensures partHeader.Some? ==> buf[..] == Plus(old(buf[..]), partHeader.value, sz)
    ensures partHeader.None? && header.Some? ==> buf[..] == Plus(old(buf[..]), header.value, sz)
    ensures var page := pageBytes % UINT16;
      ends && partHeader.None? && header.None? && !CountsTwice(buf.Length, nodeOf(0), page, sz) ==>
        Counted(nodeOf, page, sz, old(buf[..]), buf[..])
    ensures var page := pageBytes % UINT16;
      ends && partHeader.None? && header.None? && CountsTwice(buf.Length, nodeOf(0), page, sz) ==>
        buf[..] == Plus(old(buf[..]), nodeOf(0), 2 * sz)
  {
    ghost var was := buf[..];
    ends := true;
    if partHeader.Some? {
      buf[partHeader.value] := buf[partHeader.value] + sz;
      return;
    }
    if header.Some? {
      buf[header.value] := buf[header.value] + sz;
      return;
    }
    var page := pageBytes % UINT16;
    if page == 0 {
      // the loop would look at offset 0 for ever, finding the node it has
      return false;
    }
    CountPages(buf, sz, nodeOf, page);
  }

  /** The costly route: page by page. */
  method CountPages(buf: array<nat>, sz: nat, nodeOf: nat -> nat, page: nat)
    requires sz > 0 && 0 < page < UINT16
    requires forall i: nat :: nodeOf(i) < buf.Length
    modifies buf
    ensures !CountsTwice(buf.Length, nodeOf(0), page, sz) ==> Counted(nodeOf, page, sz, old(buf[..]), buf[..])
    ensures CountsTwice(buf.Length, nodeOf(0), page, sz) ==> buf[..] == Plus(old(buf[..]), nodeOf(0), 2 * sz)
  {
    ghost var was := buf[..];
    var node: nat := nodeOf(0);
    if sz <= page {
      OnePage(nodeOf, page, sz, was);
      buf[node] := buf[node] + sz;
    } else {
      RunStarts(nodeOf, page, sz, was);
    }
    var newNode: nat := (buf.Length + 1) % UINT16;
    var ifrom: nat, i: nat := 0, page;
    while i < sz
      invariant node < buf.Length
      invariant sz <= page ==> i == page && ifrom == 0 && node == nodeOf(0) && newNode == (buf.Length + 1) % UINT16
      invariant sz <= page ==> buf[..] == Plus(was, node, sz)
      invariant sz > page ==> Running(nodeOf, page, sz, i, ifrom, node, was, buf[..])
      invariant i > page ==> newNode == node
      decreases if i < sz then sz - i else 0
    {
      RunContinues(nodeOf, page, sz, i, ifrom, node, was, buf[..]);
      newNode := nodeOf(i);
      if newNode != node {
        buf[node] := buf[node] + (i - ifrom);
        node := newNode;
        ifrom := i;
      }
      i := i + page;
    }
    if sz > page {
      RunEnds(nodeOf, page, sz, i, ifrom, node, was, buf[..]);
    }
    if newNode == node {
      buf[node] := buf[node] + (sz - ifrom);
    }
  }

  function SumOf(s: seq<nat>): nat {
    if s == [] then 0 else SumOf(s[..|s| - 1]) + s[|s| - 1]
  }

  lemma {:induction false} SumOfCounted(nodeOf: nat -> nat, page: nat, sz: nat, was: seq<nat>, now: seq<nat>)
    requires page > 0 && Counted(nodeOf, page, sz, was, now)
    ensures SumOf(now) == SumOf(was) + OwnedByAll(nodeOf, page, sz, 0, |was|)
  {
    if was != [] {
      SumOfCounted(nodeOf, page, sz, was[..|was| - 1], now[..|was| - 1]);
    }
  }

  /** The total grows by exactly the size of the range. */
  lemma TotalGrowsBySize(nodeOf: nat -> nat, page: nat, sz: nat, was: seq<nat>, now: seq<nat>)
    requires page > 0 && Counted(nodeOf, page, sz, was, now) && forall j: nat :: nodeOf(j) < |was|
    ensures SumOf(now) == SumOf(was) + sz
  {
    SumOfCounted(nodeOf, page, sz, was, now);
    BytesPartition(nodeOf, page, sz, 0, |was|);
  }
}
