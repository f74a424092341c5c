/** The stream composition algebra (TAudioStream, TDecoratedAudioStream and the
    node shape of TBinaryAudioStream) as a heap of nodes.

    A node is identified by the order in which it was allocated. Every
    constructor takes streams that already exist, so the pointers a node holds
    always name older nodes: that is what `WellFormed` records, and it is what
    makes the recursive operations terminate. The buffer arguments of Read and
    Write are not modelled: a call is identified by its integer arguments, and
    the classes outside this model (file readers, concrete binary streams, ...)
    answer through a `Behaviour` that gives their results. Nodes are never
    removed from the heap; destroying a stream returns the sequence of nodes it
    deallocates, so freeing a node twice shows as a repeated entry. */
module AudioStreams {

  /** The identity (allocation number) of a stream node. */
  type NodeId = nat

  /** A `TAudioStreamPtr`: null, or a node of the heap. */
  datatype Ptr = Null | Ref(id: NodeId)

  /** The kinds of stream node.
      - `Plain`: a bare `TAudioStream`, whose every operation is the default.
      - `Source(tag)`: an instance of a stream class outside this model; `tag`
        names its behaviour.
      - `Decorated(stream)`: a `TDecoratedAudioStream` with its `fStream` slot.
      - `Binary(tag, stream, stream1, stream2)`: a `TBinaryAudioStream`, with the
        inherited `fStream` slot (the `init` argument) and its own `fStream1`
        and `fStream2`; `tag` names the concrete subclass that defines its pure
        virtual operations. */
  datatype Node =
    | Plain
    | Source(tag: nat)
    | Decorated(stream: Ptr)
    | Binary(tag: nat, stream: Ptr, stream1: Ptr, stream2: Ptr)

  /** The operations that return a `long`, with their integer arguments. */
  datatype Call =
    | ReadCall(framesNum: int, framePos: int, channels: int)
    | WriteCall(framesNum: int, framePos: int, channels: int)
    | LengthCall
    | ChannelsCall

  /** What the code outside this model answers: `answer(tag, call)` is the
      result of `call` on a node of class `tag`, `cut(tag, frames)` the stream
      its `CutBegin(frames)` returns. */
  datatype Behaviour = Behaviour(answer: (nat, Call) -> int, cut: (nat, int) -> Ptr)

  /** Why an operation has no result: a null stream was dereferenced (an
      `assert(fStream)` fails or a null pointer is called), or the operation is
      pure virtual in the core and defined by a subclass outside this model. */
  datatype Fault = NullStream | Unmodelled

  datatype Result<T> = Ok(value: T) | Fail(fault: Fault)

  /** The heap: the nodes allocated so far and the next identity to hand out. */
  datatype Heap = Heap(nodes: map<NodeId, Node>, next: NodeId)

  /** `p` is null, or a node of `h` allocated before `bound`. */
  predicate PtrBelow(h: Heap, p: Ptr, bound: NodeId)
  {
    p.Null? || (p.id < bound && p.id in h.nodes)
  }

  /** Every pointer held by `n` is null or names a node allocated before `bound`. */
  predicate NodeBelow(h: Heap, n: Node, bound: NodeId)
  {
    match n
    case Plain => true
    case Source(_) => true
    case Decorated(s) => PtrBelow(h, s, bound)
    case Binary(_, s, s1, s2) => PtrBelow(h, s, bound) && PtrBelow(h, s1, bound) && PtrBelow(h, s2, bound)
  }

  /** The heap invariant: identities are below `next`, and every node only
      points to nodes allocated before it. */
  ghost predicate WellFormed(h: Heap)
  {
    forall id :: id in h.nodes ==> id < h.next && NodeBelow(h, h.nodes[id], id)
  }

  /** `p` is null or a node of `h`. */
  predicate Points(h: Heap, p: Ptr)
  {
    p.Null? || p.id in h.nodes
  }

  /** Termination measure of the recursive operations. */
  function Rank(p: Ptr): nat
  {
    if p.Null? then 0 else p.id + 1
  }

  /** `h2` holds every node of `h1` unchanged. */
  ghost predicate Extends(h1: Heap, h2: Heap)
  {
    h1.next <= h2.next && forall id :: id in h1.nodes ==> id in h2.nodes && h2.nodes[id] == h1.nodes[id]
  }

  // ---------------------------------------------------------------------------
  // Allocation (the constructors)
  // ---------------------------------------------------------------------------

  /** Allocates `n` as a fresh node: `new` in the source. */
  function Alloc(h: Heap, n: Node): (r: (Heap, Ptr))
    requires WellFormed(h) && NodeBelow(h, n, h.next)
    ensures WellFormed(r.0) && Extends(h, r.0)
    ensures r.1 == Ref(h.next) && h.next !in h.nodes
    ensures r.0.next == h.next + 1 && h.next in r.0.nodes && r.0.nodes[h.next] == n
  {
    assert forall id :: id in h.nodes ==> NodeBelow(h.(nodes := h.nodes[h.next := n]), h.nodes[id], id);
    (Heap(h.nodes[h.next := n], h.next + 1), Ref(h.next))
  }

  /** `new TAudioStream()`. */
  function NewPlain(h: Heap): (r: (Heap, Ptr))
    requires WellFormed(h)
    ensures WellFormed(r.0) && Extends(h, r.0) && r.1.Ref? && r.1.id in r.0.nodes && r.0.nodes[r.1.id] == Plain
    ensures r.1 == Ref(h.next) && h.next !in h.nodes
  {
    Alloc(h, Plain)
  }

  /** `new TDecoratedAudioStream()`: the decorated slot is left null. */
  function NewDecorated(h: Heap): (r: (Heap, Ptr))
    requires WellFormed(h)
    ensures WellFormed(r.0) && Extends(h, r.0) && r.1.Ref? && r.1.id in r.0.nodes && r.0.nodes[r.1.id] == Decorated(Null)
    ensures r.1 == Ref(h.next) && h.next !in h.nodes
  {
    Alloc(h, Decorated(Null))
  }

  /** `new TDecoratedAudioStream(stream)`: the slot holds `stream`. */
  function NewDecoratedOf(h: Heap, stream: Ptr): (r: (Heap, Ptr))
    requires WellFormed(h) && Points(h, stream)
    ensures WellFormed(r.0) && Extends(h, r.0) && r.1.Ref? && r.1.id in r.0.nodes && r.0.nodes[r.1.id] == Decorated(stream)
    ensures r.1 == Ref(h.next) && h.next !in h.nodes
    ensures GetBranch1(r.0, r.1.id) == stream
  {
    Alloc(h, Decorated(stream))
  }

  // ---------------------------------------------------------------------------
  // The operations
  // ---------------------------------------------------------------------------

  /** The result of a `long`-valued call on `p`. A plain stream answers 0; a
      decorator forwards the call to its slot (asserting it is not null); a
      binary node inherits the decorator's `Write`, forwarding it to its
      `init` slot, and its subclass answers the other calls. */
  function Answer(h: Heap, b: Behaviour, p: Ptr, c: Call): (r: Result<int>)
    requires WellFormed(h) && Points(h, p)
    ensures p.Null? ==> r == Fail(NullStream)
    ensures r.Fail? ==> r == Fail(NullStream)
    decreases Rank(p)
  {
    match p
    case Null => Fail(NullStream)
    case Ref(id) =>
      match h.nodes[id]
      case Plain => Ok(0)
      case Source(tag) => Ok(b.answer(tag, c))
      case Decorated(s) => Answer(h, b, s, c)
      case Binary(tag, s, _, _) => if c.WriteCall? then Answer(h, b, s, c) else Ok(b.answer(tag, c))
  }

  /** The stream `CutBegin(frames)` returns: null for a plain stream, the
      slot's own cut for a decorator (the decoration is not re-applied). */
  function CutBegin(h: Heap, b: Behaviour, p: Ptr, frames: int): (r: Result<Ptr>)
    requires WellFormed(h) && Points(h, p)
    ensures p.Null? ==> r == Fail(NullStream)
    ensures r.Fail? ==> r == Fail(NullStream)
    decreases Rank(p)
  {
    match p
    case Null => Fail(NullStream)
    case Ref(id) =>
      match h.nodes[id]
      case Plain => Ok(Null)
      case Source(tag) => Ok(b.cut(tag, frames))
      case Decorated(s) => CutBegin(h, b, s, frames)
      case Binary(tag, _, _, _) => Ok(b.cut(tag, frames))
  }

  /** The nodes whose own `Reset` (respectively `Stop`) runs when `Reset`
      (respectively `Stop`) is called on `p`; both operations propagate the
      same way. A plain stream does nothing, a stream class outside the model
      runs its own, a decorator forwards to its slot, and a binary node calls
      `fStream1` then `fStream2`, leaving its `init` slot alone. */
  function Propagate(h: Heap, p: Ptr): (r: Result<seq<NodeId>>)
    requires WellFormed(h) && Points(h, p)
    ensures r.Fail? ==> r == Fail(NullStream)
    ensures r.Ok? ==> forall i :: 0 <= i < |r.value| ==> r.value[i] in h.nodes && h.nodes[r.value[i]].Source?
    decreases Rank(p)
  {
    match p
    case Null => Fail(NullStream)
    case Ref(id) =>
      match h.nodes[id]
      case Plain => Ok([])
      case Source(_) => Ok([id])
      case Decorated(s) => Propagate(h, s)
      case Binary(_, _, s1, s2) =>
        match Propagate(h, s1)
        case Fail(f) => Fail(f)
        case Ok(e1) =>
          match Propagate(h, s2)
          case Fail(f) => Fail(f)
          case Ok(e2) => Ok(e1 + e2)
  }

  /** `getBranch1()`: the decorated slot of a decorator, or `fStream1` of a
      binary node (whose own `getBranch1` hides the inherited one). */
  function GetBranch1(h: Heap, id: NodeId): (r: Ptr)
    requires id in h.nodes && (h.nodes[id].Decorated? || h.nodes[id].Binary?)
    ensures WellFormed(h) ==> PtrBelow(h, r, id)
  {
    match h.nodes[id]
    case Decorated(s) => s
    case Binary(_, _, s1, _) => s1
  }

  /** The nodes `p` owns and destroys: itself, a decorator's slot, a binary
      node's two branches (not its `init` slot). */
  function Owned(h: Heap, p: Ptr): set<NodeId>
    requires WellFormed(h) && Points(h, p)
    decreases Rank(p)
  {
    match p
    case Null => {}
    case Ref(id) =>
      {id} + match h.nodes[id]
        case Plain => {}
        case Source(_) => {}
        case Decorated(s) => Owned(h, s)
        case Binary(_, _, s1, s2) => Owned(h, s1) + Owned(h, s2)
  }

  /** The single-owner invariant below `p`: the two branches of every binary
      node own disjoint sets of nodes. */
  ghost predicate UniquelyOwned(h: Heap, p: Ptr)
    requires WellFormed(h) && Points(h, p)
    decreases Rank(p)
  {
    match p
    case Null => true
    case Ref(id) =>
      match h.nodes[id]
      case Plain => true
      case Source(_) => true
      case Decorated(s) => UniquelyOwned(h, s)
      case Binary(_, _, s1, s2) =>
        Owned(h, s1) !! Owned(h, s2) && UniquelyOwned(h, s1) && UniquelyOwned(h, s2)
  }

  /** The nodes `delete p` deallocates, in order. `delete` of null does
      nothing. A decorator's destructor deletes its slot, then the node itself
      is released. A binary node's destructor first sets the inherited slot to
      null, deletes `fStream1` and `fStream2`, and then the decorator's
      destructor deletes the (now null) slot. A stream class outside the model
      is taken to release only its own node. */
  function Deleted(h: Heap, p: Ptr): (r: seq<NodeId>)
    requires WellFormed(h) && Points(h, p)
    ensures p.Null? <==> r == []
    ensures p.Ref? ==> r[|r| - 1] == p.id
    ensures forall i :: 0 <= i < |r| ==> r[i] in h.nodes && r[i] < Rank(p)
    decreases Rank(p)
  {
    match p
    case Null => []
    case Ref(id) =>
      match h.nodes[id]
      case Plain => [id]
      case Source(_) => [id]
      case Decorated(s) => Deleted(h, s) + [id]
      case Binary(_, _, s1, s2) =>
        var slot := Null;
        Deleted(h, s1) + Deleted(h, s2) + Deleted(h, slot) + [id]
  }

  /** `p->Copy()`. A plain stream returns null; a decorator returns a fresh
      decorator around its slot's copy; a stream class outside the model is
      taken to copy itself into one fresh node of the same class. A binary
      node's `Copy` is pure virtual and defined by its subclass. */
  function Copy(h: Heap, p: Ptr): (r: Result<(Heap, Ptr)>)
    requires WellFormed(h) && Points(h, p)
    ensures r.Ok? ==> WellFormed(r.value.0) && Extends(h, r.value.0)
    ensures r.Ok? ==> PtrBelow(r.value.0, r.value.1, r.value.0.next)
    decreases Rank(p)
  {
    match p
    case Null => Fail(NullStream)
    case Ref(id) =>
      match h.nodes[id]
      case Plain => Ok((h, Null))
      case Source(tag) => Ok(Alloc(h, Source(tag)))
      case Decorated(s) =>
        (match Copy(h, s)
         case Fail(f) => Fail(f)
         case Ok(c) => Ok(Alloc(c.0, Decorated(c.1))))
      case Binary(_, _, _, _) => Fail(Unmodelled)
  }

  // ---------------------------------------------------------------------------
  // Structure of a stream tree
  // ---------------------------------------------------------------------------

  /** The tree a pointer denotes, with node identities forgotten. */
  datatype Shape =
    | NullShape
    | PlainShape
    | SourceShape(tag: nat)
    | DecoratedShape(child: Shape)
    | BinaryShape(tag: nat, init: Shape, branch1: Shape, branch2: Shape)

  function ShapeOf(h: Heap, p: Ptr): Shape
    requires WellFormed(h) && Points(h, p)
    decreases Rank(p)
  {
    match p
    case Null => NullShape
    case Ref(id) =>
      match h.nodes[id]
      case Plain => PlainShape
      case Source(tag) => SourceShape(tag)
      case Decorated(s) => DecoratedShape(ShapeOf(h, s))
      case Binary(tag, s, s1, s2) => BinaryShape(tag, ShapeOf(h, s), ShapeOf(h, s1), ShapeOf(h, s2))
  }

  /** The structure a successful copy has: plain streams copy to null (their
      `Copy` is the default), everything else keeps its shape. */
  function CopiedShape(s: Shape): Shape
  {
    match s
    case PlainShape => NullShape
    case DecoratedShape(c) => DecoratedShape(CopiedShape(c))
    case _ => s
  }

  /** The answer to a call, read off the structure alone. */
  function ShapeAnswer(s: Shape, b: Behaviour, c: Call): Result<int>
  {
    match s
    case NullShape => Fail(NullStream)
    case PlainShape => Ok(0)
    case SourceShape(tag) => Ok(b.answer(tag, c))
    case DecoratedShape(child) => ShapeAnswer(child, b, c)
    case BinaryShape(tag, init, _, _) => if c.WriteCall? then ShapeAnswer(init, b, c) else Ok(b.answer(tag, c))
  }

  /** No plain stream occurs in the shape. */
  predicate PlainFree(s: Shape)
  {
    match s
    case PlainShape => false
    case DecoratedShape(c) => PlainFree(c)
    case BinaryShape(_, i, b1, b2) => PlainFree(i) && PlainFree(b1) && PlainFree(b2)
    case _ => true
  }

  // ---------------------------------------------------------------------------
  // Properties
  // ---------------------------------------------------------------------------

  /** A plain stream answers 0 to every call, cuts to null, copies to null
      without allocating, propagates Reset and Stop to nobody, and is the only
      node its deletion frees. */
  lemma PlainDefaults(h: Heap, b: Behaviour, id: NodeId, c: Call, frames: int)
    requires WellFormed(h) && id in h.nodes && h.nodes[id] == Plain
    ensures Answer(h, b, Ref(id), c) == Ok(0)
    ensures CutBegin(h, b, Ref(id), frames) == Ok(Null)
    ensures Copy(h, Ref(id)) == Ok((h, Null))
    ensures Propagate(h, Ref(id)) == Ok([])
    ensures Deleted(h, Ref(id)) == [id]
  {
  }

  /** A decorator returns exactly what its slot returns for every call and for
      `CutBegin`, and propagates Reset and Stop exactly as its slot does; with a
      null slot each of these fails its assertion. */
  lemma DecoratorForwards(h: Heap, b: Behaviour, id: NodeId, c: Call, frames: int)
    requires WellFormed(h) && id in h.nodes && h.nodes[id].Decorated?
    ensures var s := h.nodes[id].stream;
      && Answer(h, b, Ref(id), c) == Answer(h, b, s, c)
      && CutBegin(h, b, Ref(id), frames) == CutBegin(h, b, s, frames)
      && Propagate(h, Ref(id)) == Propagate(h, s)
      && (s.Null? ==>
            && Answer(h, b, Ref(id), c) == Fail(NullStream)
            && CutBegin(h, b, Ref(id), frames) == Fail(NullStream)
            && Propagate(h, Ref(id)) == Fail(NullStream))
  {
  }

  /** The first node reached by following decorator slots from `p`. */
  function Innermost(h: Heap, p: Ptr): (r: Ptr)
    requires WellFormed(h) && Points(h, p)
    ensures Points(h, r)
    ensures r.Ref? ==> !h.nodes[r.id].Decorated?
    decreases Rank(p)
  {
    if p.Ref? && h.nodes[p.id].Decorated? then Innermost(h, h.nodes[p.id].stream) else p
  }

  /** A chain of decorators, however long, answers every call and cut exactly
      as the first non-decorator node at its end. */
  lemma {:induction false} ChainForwards(h: Heap, b: Behaviour, p: Ptr, c: Call, frames: int)
    requires WellFormed(h) && Points(h, p)
    ensures Answer(h, b, p, c) == Answer(h, b, Innermost(h, p), c)
    ensures CutBegin(h, b, p, frames) == CutBegin(h, b, Innermost(h, p), frames)
    ensures Propagate(h, p) == Propagate(h, Innermost(h, p))
    decreases Rank(p)
  {
    if p.Ref? && h.nodes[p.id].Decorated? {
      ChainForwards(h, b, h.nodes[p.id].stream, c, frames);
    }
  }

  /** Every node `p` owns was allocated no later than `p`. */
  lemma {:induction false} OwnedBelow(h: Heap, p: Ptr)
    requires WellFormed(h) && Points(h, p)
    ensures forall x :: x in Owned(h, p) ==> x < Rank(p) && x in h.nodes
    decreases Rank(p)
  {
    match p
    case Null =>
    case Ref(id) =>
      match h.nodes[id]
      case Plain =>
      case Source(_) =>
      case Decorated(s) => OwnedBelow(h, s);
      case Binary(_, _, s1, s2) => OwnedBelow(h, s1); OwnedBelow(h, s2);
  }

  /** Reset and Stop only ever reach nodes that `p` owns: in particular a
      binary node never reaches its `init` slot through its own code. */
  lemma {:induction false} PropagateStaysOwned(h: Heap, p: Ptr)
    requires WellFormed(h) && Points(h, p) && Propagate(h, p).Ok?
    ensures forall x :: x in Propagate(h, p).value ==> x in Owned(h, p)
    decreases Rank(p)
  {
    match p
    case Ref(id) =>
      match h.nodes[id]
      case Plain =>
      case Source(_) =>
      case Decorated(s) => PropagateStaysOwned(h, s);
      case Binary(_, _, s1, s2) => PropagateStaysOwned(h, s1); PropagateStaysOwned(h, s2);
  }

  /** Deleting `p` frees exactly the nodes `p` owns (possibly some twice). */
  lemma {:induction false} DeletedCoversOwned(h: Heap, p: Ptr)
    requires WellFormed(h) && Points(h, p)
    ensures forall x :: x in Deleted(h, p) <==> x in Owned(h, p)
    decreases Rank(p)
  {
    match p
    case Null =>
    case Ref(id) =>
      match h.nodes[id]
      case Plain =>
      case Source(_) =>
      case Decorated(s) => DeletedCoversOwned(h, s);
      case Binary(_, _, s1, s2) => DeletedCoversOwned(h, s1); DeletedCoversOwned(h, s2);
  }

  lemma DisjointUnionMultiset(a: set<NodeId>, b: set<NodeId>)
    requires a !! b
    ensures multiset(a + b) == multiset(a) + multiset(b)
  {
    forall x ensures multiset(a + b)[x] == (multiset(a) + multiset(b))[x] {
      assert x in a ==> x !in b;
    }
  }

  /** Under the single-owner invariant, deleting `p` frees every node it owns
      exactly once and nothing else: the multiset of freed nodes is the set of
      owned nodes, each with multiplicity 1. */
  lemma {:induction false} DeleteFreesOwnedOnce(h: Heap, p: Ptr)
    requires WellFormed(h) && Points(h, p) && UniquelyOwned(h, p)
    ensures multiset(Deleted(h, p)) == multiset(Owned(h, p))
    decreases Rank(p)
  {
    match p
    case Null =>
    case Ref(id) =>
      match h.nodes[id]
      case Plain =>
      case Source(_) =>
      case Decorated(s) =>
        DeleteFreesOwnedOnce(h, s);
        OwnedBelow(h, s);
        DisjointUnionMultiset(Owned(h, s), {id});
      case Binary(_, _, s1, s2) =>
        DeleteFreesOwnedOnce(h, s1);
        DeleteFreesOwnedOnce(h, s2);
        BinaryDeleteMultiset(h, id, s1, s2);
  }

  lemma BinaryDeleteMultiset(h: Heap, id: NodeId, s1: Ptr, s2: Ptr)
    requires WellFormed(h) && id in h.nodes && h.nodes[id].Binary?
    requires s1 == h.nodes[id].stream1 && s2 == h.nodes[id].stream2
    requires Owned(h, s1) !! Owned(h, s2)
    requires multiset(Deleted(h, s1)) == multiset(Owned(h, s1))
    requires multiset(Deleted(h, s2)) == multiset(Owned(h, s2))
    ensures multiset(Deleted(h, Ref(id))) == multiset(Owned(h, Ref(id)))
  {
    assert Deleted(h, Ref(id)) == Deleted(h, s1) + Deleted(h, s2) + [] + [id];
    assert Owned(h, Ref(id)) == {id} + (Owned(h, s1) + Owned(h, s2));
    OwnedBelow(h, s1);
    OwnedBelow(h, s2);
    TwoBranchMultiset(Deleted(h, s1), Deleted(h, s2), Owned(h, s1), Owned(h, s2), id);
  }

  lemma TwoBranchMultiset(d1: seq<NodeId>, d2: seq<NodeId>, o1: set<NodeId>, o2: set<NodeId>, id: NodeId)
    requires multiset(d1) == multiset(o1) && multiset(d2) == multiset(o2)
    requires o1 !! o2 && id !in o1 + o2
    ensures multiset(d1 + d2 + [] + [id]) == multiset({id} + (o1 + o2))
  {
    DisjointUnionMultiset(o1, o2);
    DisjointUnionMultiset(o1 + o2, {id});
    assert (o1 + o2) + {id} == {id} + (o1 + o2);
    assert multiset(d1 + d2 + [] + [id]) == multiset(d1) + multiset(d2) + multiset{id};
  }

  /** Growing the heap changes neither the structure nor the owned nodes of a
      pointer that was already valid. */
  lemma {:induction false} FrameShapeOwned(h1: Heap, h2: Heap, p: Ptr)
    requires WellFormed(h1) && WellFormed(h2) && Extends(h1, h2) && Points(h1, p)
    ensures ShapeOf(h2, p) == ShapeOf(h1, p) && Owned(h2, p) == Owned(h1, p)
    ensures UniquelyOwned(h2, p) == UniquelyOwned(h1, p)
    decreases Rank(p)
  {
    match p
    case Null =>
    case Ref(id) =>
      match h1.nodes[id]
      case Plain =>
      case Source(_) =>
      case Decorated(s) => FrameShapeOwned(h1, h2, s);
      case Binary(_, s, s1, s2) =>
        FrameShapeOwned(h1, h2, s);
        FrameShapeOwned(h1, h2, s1);
        FrameShapeOwned(h1, h2, s2);
  }

  /** The answer to a call depends only on the structure of the tree. */
  lemma {:induction false} AnswerByShape(h: Heap, b: Behaviour, p: Ptr, c: Call)
    requires WellFormed(h) && Points(h, p)
    ensures Answer(h, b, p, c) == ShapeAnswer(ShapeOf(h, p), b, c)
    decreases Rank(p)
  {
    match p
    case Null =>
    case Ref(id) =>
      match h.nodes[id]
      case Plain =>
      case Source(_) =>
      case Decorated(s) => AnswerByShape(h, b, s, c);
      case Binary(_, s, _, _) => AnswerByShape(h, b, s, c);
  }

  /** A successful `Copy` builds a disjoint clone: the old nodes are untouched,
      every node the copy owns is freshly allocated, the copy is uniquely
      owned, and its structure is the original's with plain streams dropped to
      null (their `Copy` returns null). */
  lemma {:induction false} CopyIsDisjointClone(h: Heap, p: Ptr)
    requires WellFormed(h) && Points(h, p) && Copy(h, p).Ok?
    ensures var (h', q) := Copy(h, p).value;
      && WellFormed(h') && Extends(h, h') && Points(h', q)
      && (forall x :: x in Owned(h', q) ==> h.next <= x < h'.next)
      && UniquelyOwned(h', q)
      && ShapeOf(h', q) == CopiedShape(ShapeOf(h, p))
    decreases Rank(p)
  {
    var id := p.id;
    var (h', q) := Copy(h, p).value;
    match h.nodes[id]
    case Plain =>
    case Source(_) =>
    case Decorated(s) =>
      var (h1, q1) := Copy(h, s).value;
      CopyIsDisjointClone(h, s);
      assert h' == Alloc(h1, Decorated(q1)).0;
      FrameShapeOwned(h1, h', q1);
      OwnedBelow(h1, q1);
  }

  /** A copy of a tree without plain streams has the same structure and so
      answers every call exactly as the original. Destroying the copy frees
      each of its nodes once and none of the nodes of the original heap. */
  lemma CopyBehavesAlike(h: Heap, b: Behaviour, p: Ptr, c: Call)
    requires WellFormed(h) && Points(h, p) && Copy(h, p).Ok? && PlainFree(ShapeOf(h, p))
    ensures var (h', q) := Copy(h, p).value;
      && ShapeOf(h', q) == ShapeOf(h, p)
      && Answer(h', b, q, c) == Answer(h, b, p, c)
      && multiset(Deleted(h', q)) == multiset(Owned(h', q))
      && (forall x :: x in Deleted(h', q) ==> x !in h.nodes)
  {
    var (h', q) := Copy(h, p).value;
    CopyIsDisjointClone(h, p);
    CopiedShapeOfPlainFree(ShapeOf(h, p));
    AnswerByShape(h, b, p, c);
    AnswerByShape(h', b, q, c);
    DeleteFreesOwnedOnce(h', q);
    DeletedCoversOwned(h', q);
    forall x | x in Deleted(h', q) ensures x !in h.nodes {
      assert x in Owned(h', q);
    }
  }

  lemma {:induction false} CopiedShapeOfPlainFree(s: Shape)
    requires PlainFree(s)
    ensures CopiedShape(s) == s
  {
    match s
    case DecoratedShape(c) => CopiedShapeOfPlainFree(c);
    case _ =>
  }

  /** Copying a decorator around a plain stream yields a decorator with a null
      slot, whose calls then fail their assertion where the original answered 0. */
  lemma CopyOfDecoratedPlain(b: Behaviour, c: Call)
    ensures var h := Heap(map[0 := Plain, 1 := Decorated(Ref(0))], 2);
      && WellFormed(h)
      && Answer(h, b, Ref(1), c) == Ok(0)
      && Copy(h, Ref(1)) == Ok((Heap(h.nodes[2 := Decorated(Null)], 3), Ref(2)))
      && Answer(Copy(h, Ref(1)).value.0, b, Ref(2), c) == Fail(NullStream)
  {
    var h := Heap(map[0 := Plain, 1 := Decorated(Ref(0))], 2);
    assert WellFormed(h);
    var h' := Heap(h.nodes[2 := Decorated(Null)], 3);
    assert WellFormed(h');
  }
}
