/** The binary stream node (TBinaryAudioStream): two owned branches
    `fStream1` and `fStream2`, plus the slot inherited from the decorator,
    which holds the `init` stream and is not owned. */
module BinaryAudioStream {
  import opened AudioStreams

  /** `TBinaryAudioStream(s1, s2, init)`, as built by the concrete subclass `tag`. */
  function NewBinary(h: Heap, tag: nat, s1: Ptr, s2: Ptr, init: Ptr): (r: (Heap, Ptr))
    requires WellFormed(h) && Points(h, s1) && Points(h, s2) && Points(h, init)
    ensures WellFormed(r.0) && Extends(h, r.0) && r.1.Ref? && r.1.id in r.0.nodes
    ensures r.0.nodes[r.1.id].Binary? && r.0.nodes[r.1.id].stream == init
    ensures GetBranch1(r.0, r.1.id) == s1 && GetBranch2(r.0, r.1.id) == s2
  {
    Alloc(h, Binary(tag, init, s1, s2))
  }

  /** `getBranch2()`: the second branch. */
  function GetBranch2(h: Heap, id: NodeId): (r: Ptr)
    requires id in h.nodes && h.nodes[id].Binary?
    ensures WellFormed(h) ==> PtrBelow(h, r, id)
  {
    h.nodes[id].stream2
  }

  /** What a binary node does itself: `Write` (not overridden) goes to the
      `init` slot; `Reset` and `Stop` reach the first branch, then the second,
      and only nodes those branches own; deleting it frees both branches and
      then the node, never through the `init` slot. */
  lemma BinaryOperations(h: Heap, b: Behaviour, id: NodeId, framesNum: int, framePos: int, channels: int)
    requires WellFormed(h) && id in h.nodes && h.nodes[id].Binary?
    ensures var n := h.nodes[id];
      && Answer(h, b, Ref(id), WriteCall(framesNum, framePos, channels))
         == Answer(h, b, n.stream, WriteCall(framesNum, framePos, channels))
      && (Propagate(h, Ref(id)).Ok? <==> Propagate(h, n.stream1).Ok? && Propagate(h, n.stream2).Ok?)
      && (Propagate(h, Ref(id)).Ok? ==>
            && Propagate(h, Ref(id)).value == Propagate(h, n.stream1).value + Propagate(h, n.stream2).value
            && forall x :: x in Propagate(h, Ref(id)).value ==> x in Owned(h, n.stream1) + Owned(h, n.stream2))
      && Deleted(h, Ref(id)) == Deleted(h, n.stream1) + Deleted(h, n.stream2) + [id]
  {
    var n := h.nodes[id];
    if Propagate(h, Ref(id)).Ok? {
      PropagateStaysOwned(h, n.stream1);
      PropagateStaysOwned(h, n.stream2);
    }
  }

  /** A binary node never frees its `init` stream itself: when `init` is not
      owned by either branch, deleting the node leaves it allocated. */
  lemma BinaryNeverFreesInit(h: Heap, id: NodeId)
    requires WellFormed(h) && id in h.nodes && h.nodes[id].Binary?
    requires h.nodes[id].stream.Ref?
    requires h.nodes[id].stream.id !in Owned(h, h.nodes[id].stream1) + Owned(h, h.nodes[id].stream2)
    ensures h.nodes[id].stream.id !in Deleted(h, Ref(id))
  {
    var n := h.nodes[id];
    DeletedCoversOwned(h, n.stream1);
    DeletedCoversOwned(h, n.stream2);
    assert n.stream.id < id;
  }

  /** When `init` aliases one of the branches (the usual way subclasses build
      the node) and the branches own disjoint trees, deleting the node frees
      `init` exactly once, like every other node it owns. */
  lemma InitAliasFreedOnce(h: Heap, id: NodeId)
    requires WellFormed(h) && id in h.nodes && h.nodes[id].Binary?
    requires UniquelyOwned(h, Ref(id))
    requires var n := h.nodes[id]; n.stream.Ref? && (n.stream == n.stream1 || n.stream == n.stream2)
    ensures multiset(Deleted(h, Ref(id)))[h.nodes[id].stream.id] == 1
    ensures multiset(Deleted(h, Ref(id))) == multiset(Owned(h, Ref(id)))
  {
    var n := h.nodes[id];
    DeleteFreesOwnedOnce(h, Ref(id));
    assert n.stream.id in Owned(h, n.stream);
  }

  /** The single-owner invariant is needed: a binary node whose two branches
      are the same stream frees that stream twice. */
  lemma SharedBranchesFreedTwice()
    ensures var h := Heap(map[0 := Source(0), 1 := Binary(0, Ref(0), Ref(0), Ref(0))], 2);
      && WellFormed(h)
      && Deleted(h, Ref(1)) == [0, 0, 1]
      && !UniquelyOwned(h, Ref(1))
  {
    var h := Heap(map[0 := Source(0), 1 := Binary(0, Ref(0), Ref(0), Ref(0))], 2);
    assert WellFormed(h);
    assert Owned(h, Ref(0)) == {0};
  }
}
