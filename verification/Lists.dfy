/** The intrusive circular lists of include/list.h. */
module Lists {

  /** A list node. `owner` stands for container_of: the index of the record that embeds the node,
      or -1 for a list head. */
  class ListHead {
    var next: ListHead?
    var prev: ListHead?
    const owner: int

    constructor (owner: int)
      ensures this.owner == owner && Ring([this])
    {
      this.owner := owner;
      new;
      next := this;
      prev := this;
    }
  }

  ghost predicate Distinct(c: seq<ListHead>) {
    forall i, j :: 0 <= i < j < |c| ==> c[i] != c[j]
  }

  /** The nodes of c, in this order, form one well-linked circle. */
  ghost predicate Ring(c: seq<ListHead>)
    reads c
  {
    && c != [] && Distinct(c)
    && (forall i {:trigger c[i].next} :: 0 <= i < |c| - 1 ==> c[i].next == c[i + 1])
    && (forall i {:trigger c[i].prev} :: 0 < i < |c| ==> c[i].prev == c[i - 1])
    && c[|c| - 1].next == c[0]
    && c[0].prev == c[|c| - 1]
  }

  /** The node after c[i] on the circle. */
  ghost function NextOn(c: seq<ListHead>, i: nat): ListHead
    requires i < |c|
  {
    if i + 1 < |c| then c[i + 1] else c[0]
  }

  function Drop<T>(c: seq<T>, i: nat): seq<T>
    requires i < |c|
  {
    c[..i] + c[i + 1..]
  }

  method InitListHead(list: ListHead)
    modifies list
    ensures Ring([list])
  {
    list.next := list;
    list.prev := list;
  }

  method ListEmpty(head: ListHead, ghost c: seq<ListHead>) returns (empty: bool)
    requires Ring(c) && c[0] == head
    ensures empty <==> |c| == 1
  {
    empty := head.next == head;
    assert |c| > 1 ==> head.next == c[1];
  }

  /** __list_add: `node` goes between two linked nodes. */
  method AddBetween(node: ListHead, prev: ListHead, next: ListHead,
                    ghost c: seq<ListHead>, ghost i: nat)
    requires Ring(c) && i < |c| && prev == c[i] && next == NextOn(c, i) && node !in c
    modifies c, node
    ensures Ring(c[..i + 1] + [node] + c[i + 1..])
  {
    next.prev := node;
    node.next := next;
    node.prev := prev;
    prev.next := node;
  }

  /** list_add_tail: `node` goes to the end of the list of `head`. */
  method AddTail(node: ListHead, head: ListHead, ghost c: seq<ListHead>)
    requires Ring(c) && c[0] == head && node !in c
    modifies c, node
    ensures Ring(c + [node])
  {
    assert c + [node] == c[..|c| - 1 + 1] + [node] + c[|c| - 1 + 1..];
    AddBetween(node, head.prev, head, c, |c| - 1);
  }

  /** __list_del, for a node that is on a list and not its head, or linked to itself. */
  method Del(entry: ListHead, ghost c: seq<ListHead>, ghost i: nat)
    requires Ring(c) && i < |c| && c[i] == entry && (i == 0 ==> |c| == 1)
    modifies c
    ensures i > 0 ==> Ring(Drop(c, i))
    ensures entry.next == null && entry.prev == null
  {
    assert entry.prev == (if i > 0 then c[i - 1] else c[0]) && entry.next == NextOn(c, i);
    entry.prev.next := entry.next;
    entry.next.prev := entry.prev;
    entry.next := null;
    entry.prev := null;
    ghost var d := Drop(c, i);
    assert forall k :: 0 <= k < |d| ==> d[k] == (if k < i then c[k] else c[k + 1]);
  }

  /** list_del_init: the node leaves its list, if it is on one, and ends up linked to itself. */
  method DelInit(entry: ListHead, ghost c: seq<ListHead>, ghost i: nat)
    requires Ring(c) && i < |c| && c[i] == entry && (i == 0 ==> |c| == 1)
    modifies c
    ensures Ring([entry])
    ensures i > 0 ==> Ring(Drop(c, i))
  {
    Del(entry, c, i);
    entry.prev := entry;
    entry.next := entry;
    assert i > 0 ==> entry !in Drop(c, i);
  }

  /** No node is on both circles. */
  ghost predicate ApartFrom(c: seq<ListHead>, d: seq<ListHead>) {
    forall i, j :: 0 <= i < |c| && 0 <= j < |d| ==> c[i] != d[j]
  }

  ghost predicate NodesIn(cs: seq<seq<ListHead>>, nodes: set<ListHead>) {
    forall k, i :: 0 <= k < |cs| && 0 <= i < |cs[k]| ==> cs[k][i] in nodes
  }

  /** Several circles whose nodes are all among `nodes`. */
  ghost predicate RingsIn(cs: seq<seq<ListHead>>, nodes: set<ListHead>)
    reads nodes
  {
    NodesIn(cs, nodes) && forall k {:trigger Ring(cs[k])} :: 0 <= k < |cs| ==> Ring(cs[k])
  }

  ghost predicate MutuallyApart(cs: seq<seq<ListHead>>) {
    forall k, m :: 0 <= k < |cs| && 0 <= m < |cs| && k != m ==> ApartFrom(cs[k], cs[m])
  }

  /** `entry` is the i-th node of circle k, or on none of the circles when k is their number. */
  ghost predicate StandsAt(entry: ListHead, cs: seq<seq<ListHead>>, k: nat, i: nat) {
    && k <= |cs|
    && (k < |cs| ==> 0 < i < |cs[k]| && cs[k][i] == entry)
    && forall m :: 0 <= m < |cs| && m != k ==> entry !in cs[m]
  }

  ghost function Removed(cs: seq<seq<ListHead>>, k: nat, i: nat): seq<seq<ListHead>>
    requires k < |cs| ==> i < |cs[k]|
  {
    if k < |cs| then cs[k := Drop(cs[k], i)] else cs
  }

  ghost function Added(cs: seq<seq<ListHead>>, node: ListHead, k: nat): seq<seq<ListHead>>
    requires k < |cs|
  {
    cs[k := cs[k] + [node]]
  }

  /** list_del_init, seen from several circles that share no node. */
  method DelInitAmong(entry: ListHead, ghost cs: seq<seq<ListHead>>, ghost k: nat, ghost i: nat,
                      ghost nodes: set<ListHead>)
    requires StandsAt(entry, cs, k, i) && (k == |cs| ==> Ring([entry]))
    requires RingsIn(cs, nodes) && MutuallyApart(cs) && entry in nodes
    modifies nodes
    ensures Ring([entry]) && RingsIn(Removed(cs, k, i), nodes)
  {
    ghost var c, at := [entry], 0;
    if k < |cs| {
      c, at := cs[k], i;
      assert Ring(cs[k]);
    }
    DelInit(entry, c, at);
    ghost var ds := Removed(cs, k, i);
    forall m | 0 <= m < |ds|
      ensures Ring(ds[m])
    {
      if m != k {
        assert Ring(cs[m]) && entry !in cs[m];
        assert k < |cs| ==> ApartFrom(cs[k], cs[m]);
      }
    }
    RemovedNodes(cs, k, i, nodes);
  }

  lemma RemovedNodes(cs: seq<seq<ListHead>>, k: nat, i: nat, nodes: set<ListHead>)
    requires (k < |cs| ==> i < |cs[k]|) && NodesIn(cs, nodes)
    ensures NodesIn(Removed(cs, k, i), nodes)
  {
    var ds := Removed(cs, k, i);
    forall m, j | 0 <= m < |ds| && 0 <= j < |ds[m]|
      ensures ds[m][j] in nodes
    {
      if m == k {
        assert ds[m][j] == (if j < i then cs[m][j] else cs[m][j + 1]);
      }
    }
  }

  /** A node taken off its circle is on none of them, and they still share nothing. */
  lemma RemovedApart(entry: ListHead, cs: seq<seq<ListHead>>, k: nat, i: nat)
    requires StandsAt(entry, cs, k, i) && MutuallyApart(cs) && (k < |cs| ==> Distinct(cs[k]))
    ensures StandsAt(entry, Removed(cs, k, i), |cs|, 0) && MutuallyApart(Removed(cs, k, i))
  {
    if k < |cs| {
      var d, ds := Drop(cs[k], i), Removed(cs, k, i);
      assert forall j :: 0 <= j < |d| ==> d[j] == (if j < i then cs[k][j] else cs[k][j + 1]);
      forall a, b | 0 <= a < |ds| && 0 <= b < |ds| && a != b
        ensures ApartFrom(ds[a], ds[b])
      {
        assert ApartFrom(cs[a], cs[b]);
      }
    }
  }

  /** list_add_tail, seen from several circles that share no node. */
  method AddTailAmong(node: ListHead, head: ListHead, ghost cs: seq<seq<ListHead>>, ghost k: nat,
                      ghost nodes: set<ListHead>)
    requires k < |cs| && cs[k] != [] && cs[k][0] == head && StandsAt(node, cs, |cs|, 0)
    requires RingsIn(cs, nodes) && MutuallyApart(cs) && node in nodes
    modifies nodes
    ensures RingsIn(Added(cs, node, k), nodes)
  {
    assert Ring(cs[k]);
    AddTail(node, head, cs[k]);
    ghost var ds := Added(cs, node, k);
    forall m | 0 <= m < |ds|
      ensures Ring(ds[m])
    {
      assert m != k ==> ApartFrom(cs[k], cs[m]);
    }
  }

  /** list_del_init and list_add_tail: the node moves to the end of circle `dst`. */
  method MoveTail(node: ListHead, head: ListHead, ghost cs: seq<seq<ListHead>>,
                  ghost k: nat, ghost i: nat, ghost dst: nat, ghost nodes: set<ListHead>)
    requires StandsAt(node, cs, k, i) && (k == |cs| ==> Ring([node]))
    requires RingsIn(cs, nodes) && MutuallyApart(cs) && node in nodes
    requires dst < |cs| && cs[dst] != [] && cs[dst][0] == head
    modifies nodes
    ensures RingsIn(Added(Removed(cs, k, i), node, dst), nodes)
  {
    assert k < |cs| ==> Ring(cs[k]);
    RemovedApart(node, cs, k, i);
    DelInitAmong(node, cs, k, i, nodes);
    AddTailAmong(node, head, Removed(cs, k, i), dst, nodes);
  }
}
