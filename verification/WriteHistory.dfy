/** The write history kept for verification (iolog.c): log_io_piece, unlog_io_piece,
    trim_io_piece and prune_io_piece_log over a search tree of arbitrary shape.  Pieces are
    named by the order in which they were logged; the heap maps a name to its record. */
module WriteHistory {
  import opened Counting
  import opened Options

  type PieceId = nat

  /** struct io_piece: a range of a file, and the flags IN_FLIGHT, ONRB and ONLIST. */
  datatype Piece = Piece(file: nat, off: nat, len: nat, inFlight: bool, onRb: bool, onList: bool)

  type Heap = map<PieceId, Piece>

  datatype Tree = Leaf | Node(left: Tree, id: PieceId, right: Tree)

  /** The two tests of log_io_piece for pieces `a` and `b` of the same file, and its last
      resort for equal offsets. */
  predicate Overlap(a: Piece, b: Piece) {
    a.file == b.file &&
    if a.off < b.off then a.off + a.len > b.off else if a.off > b.off then b.off + b.len > a.off else true
  }

  /** Tree order, with room for the whole of `a` before `b`. */
  predicate Before(a: Piece, b: Piece) {
    a.file < b.file || (a.file == b.file && a.off < b.off && a.off + a.len <= b.off)
  }

  predicate Covers(a: Piece, file: nat, byte: nat) {
    a.file == file && a.off <= byte < a.off + a.len
  }

  /** For pieces that are not empty the source's test is that some byte is covered twice. */
  lemma OverlapMeansSharedByte(a: Piece, b: Piece)
    requires a.len > 0 && b.len > 0
    ensures Overlap(a, b) <==> exists byte :: Covers(a, a.file, byte) && Covers(b, a.file, byte)
  {
    if Overlap(a, b) {
      var byte := if a.off < b.off then b.off else a.off;
      assert Covers(a, a.file, byte) && Covers(b, a.file, byte);
    }
  }

  // ----- trees and positions in them

  function InOrder(t: Tree): seq<PieceId> {
    match t
    case Leaf => []
    case Node(l, x, r) => InOrder(l) + [x] + InOrder(r)
  }

  /** The links passed on the way down: where `p` points in log_io_piece. */
  datatype Ctx = Top | GoneLeft(id: PieceId, right: Tree, up: Ctx) | GoneRight(left: Tree, id: PieceId, up: Ctx)

  /** The whole tree with `t` at the position. */
  function Plug(c: Ctx, t: Tree): Tree {
    match c
    case Top => t
    case GoneLeft(x, r, up) => Plug(up, Node(t, x, r))
    case GoneRight(l, x, up) => Plug(up, Node(l, x, t))
  }

  function Pre(c: Ctx): seq<PieceId> {
    match c
    case Top => []
    case GoneLeft(_, _, up) => Pre(up)
    case GoneRight(l, x, up) => Pre(up) + InOrder(l) + [x]
  }

  function Post(c: Ctx): seq<PieceId> {
    match c
    case Top => []
    case GoneLeft(x, r, up) => [x] + InOrder(r) + Post(up)
    case GoneRight(_, _, up) => Post(up)
  }

  lemma Regroup(a: seq<PieceId>, b: seq<PieceId>, c: seq<PieceId>, d: seq<PieceId>, e: seq<PieceId>)
    ensures a + (b + c + d) + e == a + b + (c + d + e)
    ensures a + (b + c + d) + e == a + b + c + d + e
  {
  }

  lemma {:induction false} PlugInOrder(c: Ctx, t: Tree)
    ensures InOrder(Plug(c, t)) == Pre(c) + InOrder(t) + Post(c)
  {
    match c
    case Top =>
    case GoneLeft(x, r, up) =>
      PlugInOrder(up, Node(t, x, r));
      Regroup(Pre(up), InOrder(t), [x], InOrder(r), Post(up));
    case GoneRight(l, x, up) =>
      PlugInOrder(up, Node(l, x, t));
      Regroup(Pre(up), InOrder(l), [x], InOrder(t), Post(up));
  }

  /** The red-black tree library: it may reshape the tree as it likes. */
  datatype Balancer = Balancer(erase: (Tree, PieceId) -> Tree, insertColor: Tree -> Tree)
  {
    ghost predicate Faithful() {
      && (forall t: Tree, x: PieceId :: InOrder(erase(t, x)) == Without(InOrder(t), x))
      && (forall t: Tree :: InOrder(insertColor(t)) == InOrder(t))
    }
  }

  /** The tree before and after linking a node at an empty link. */
  lemma LinkInOrder(rb: Balancer, c: Ctx, id: PieceId)
    requires rb.Faithful()
    ensures InOrder(Plug(c, Leaf)) == Pre(c) + Post(c)
    ensures InOrder(rb.insertColor(Plug(c, Node(Leaf, id, Leaf)))) == Pre(c) + [id] + Post(c)
  {
    PlugInOrder(c, Leaf);
    PlugInOrder(c, Node(Leaf, id, Leaf));
    assert Pre(c) + [] == Pre(c) && InOrder(Node(Leaf, id, Leaf)) == [id];
  }

  // ----- ordered, pairwise disjoint histories

  predicate InHeap(s: seq<PieceId>, h: Heap) {
    forall x :: x in s ==> x in h
  }

  /** In tree order, with no overlap. */
  ghost predicate Ordered(s: seq<PieceId>, h: Heap) {
    InHeap(s, h) && forall i, j :: 0 <= i < j < |s| ==> Before(h[s[i]], h[s[j]])
  }

  lemma BeforeTransitive(a: Piece, b: Piece, c: Piece)
    requires Before(a, b) && Before(b, c)
    ensures Before(a, c)
  {
  }

  lemma OrderedTail(s: seq<PieceId>, h: Heap)
    requires Ordered(s, h) && s != []
    ensures s[0] in h && Ordered(s[1..], h) && forall y :: y in s[1..] ==> y in h && Before(h[s[0]], h[y])
  {
    var r := s[1..];
    assert s[0] in s && forall j :: 0 <= j < |r| ==> r[j] == s[j + 1] && s[j + 1] in s;
  }

  lemma OrderedCons(x: PieceId, r: seq<PieceId>, h: Heap)
    requires x in h && Ordered(r, h) && forall y :: y in r ==> y in h && Before(h[x], h[y])
    ensures Ordered([x] + r, h)
  {
    var s := [x] + r;
    assert forall j :: 1 <= j < |s| ==> s[j] == r[j - 1] && r[j - 1] in r;
  }

  lemma {:induction false} WithoutOrdered(s: seq<PieceId>, h: Heap, x: PieceId)
    requires Ordered(s, h)
    ensures Ordered(Without(s, x), h) && forall y :: y in Without(s, x) <==> y in s && y != x
  {
    if s != [] {
      assert s == [s[0]] + s[1..];
      OrderedTail(s, h);
      if s[0] != x {
        WithoutOrdered(s[1..], h, x);
        OrderedCons(s[0], Without(s[1..], x), h);
      }
    }
  }

  /** Taking one piece out of tree and heap. */
  lemma UnlinkedOrdered(s: seq<PieceId>, h: Heap, x: PieceId, s': seq<PieceId>, h': Heap)
    requires Ordered(s, h) && s' == Without(s, x) && h' == h - {x}
    ensures Ordered(s', h') && (forall y :: y in s' <==> y in s && y != x)
    ensures Linked(s', h') == Linked(s, h) - {x}
  {
    WithoutOrdered(s, h, x);
    OrderedSmaller(s', h, x);
    LinkedSmaller(s, h, x, s');
  }

  lemma OrderedSmaller(s: seq<PieceId>, h: Heap, x: PieceId)
    requires Ordered(s, h) && x !in s
    ensures Ordered(s, h - {x})
  {
    var h' := h - {x};
    forall i, j | 0 <= i < j < |s|
      ensures Before(h'[s[i]], h'[s[j]])
    {
      assert s[i] in s && s[j] in s && Before(h[s[i]], h[s[j]]);
    }
  }

  lemma LinkedSmaller(s: seq<PieceId>, h: Heap, x: PieceId, s': seq<PieceId>)
    requires InHeap(s, h) && forall y :: y in s' <==> y in s && y != x
    ensures InHeap(s', h - {x}) && Linked(s', h - {x}) == Linked(s, h) - {x}
  {
  }

  /** A shorter piece keeps its place. */
  lemma ShortenOrdered(s: seq<PieceId>, h: Heap, x: PieceId, len: nat)
    requires Ordered(s, h) && x in h && len <= h[x].len
    ensures Ordered(s, h[x := h[x].(len := len)])
  {
    var h' := h[x := h[x].(len := len)];
    forall i, j | 0 <= i < j < |s|
      ensures Before(h'[s[i]], h'[s[j]])
    {
      assert Before(h[s[i]], h[s[j]]) && s[i] in s && s[j] in s;
    }
  }

  /** Everything left of the position lies before `n`, everything right of it after `n`. */
  ghost predicate Between(c: Ctx, h: Heap, n: Piece) {
    && InHeap(Pre(c), h) && InHeap(Post(c), h)
    && (forall x :: x in Pre(c) ==> Before(h[x], n))
    && (forall y :: y in Post(c) ==> Before(n, h[y]))
  }

  /** A node is ordered with respect to both its subtrees. */
  lemma NodeOrdered(a: seq<PieceId>, l: seq<PieceId>, x: PieceId, r: seq<PieceId>, b: seq<PieceId>, h: Heap)
    requires Ordered(a + (l + [x] + r) + b, h)
    ensures x in h
    ensures forall z :: z in l ==> z in h && Before(h[z], h[x])
    ensures forall y :: y in r ==> y in h && Before(h[x], h[y])
  {
    var s, k := a + (l + [x] + r) + b, |a| + |l|;
    assert s[k] == x;
    forall z | z in l
      ensures z in h && Before(h[z], h[x])
    {
      var i :| 0 <= i < |l| && l[i] == z;
      assert s[|a| + i] == z;
    }
    forall y | y in r
      ensures y in h && Before(h[x], h[y])
    {
      var j :| 0 <= j < |r| && r[j] == y;
      assert s[k + 1 + j] == y;
    }
  }

  /** Going left past a piece that starts later and is not reached by `n`: nothing to the right
      of the new position can overlap `n`. */
  lemma GoLeft(c: Ctx, t: Tree, h: Heap, n: Piece)
    requires t.Node? && t.id in h && Ordered(Pre(c) + InOrder(t) + Post(c), h) && Between(c, h, n) && Before(n, h[t.id])
    ensures Between(GoneLeft(t.id, t.right, c), h, n)
  {
    NodeOrdered(Pre(c), InOrder(t.left), t.id, InOrder(t.right), Post(c), h);
    forall y | y in InOrder(t.right)
      ensures Before(n, h[y])
    {
      BeforeTransitive(n, h[t.id], h[y]);
    }
  }

  /** Going right past a piece that ends before `n` starts: nothing to the left of the new
      position can overlap `n`. */
  lemma GoRight(c: Ctx, t: Tree, h: Heap, n: Piece)
    requires t.Node? && t.id in h && Ordered(Pre(c) + InOrder(t) + Post(c), h) && Between(c, h, n) && Before(h[t.id], n)
    ensures Between(GoneRight(t.left, t.id, c), h, n)
  {
    NodeOrdered(Pre(c), InOrder(t.left), t.id, InOrder(t.right), Post(c), h);
    forall x | x in InOrder(t.left)
      ensures Before(h[x], n)
    {
      BeforeTransitive(h[x], h[t.id], n);
    }
  }

  /** A descent that reaches an empty link without meeting an overlap proves that no piece
      anywhere in the tree overlaps `n`, and `n` fits in order there. */
  lemma DescentComplete(c: Ctx, h: Heap, id: PieceId, n: Piece)
    requires Ordered(Pre(c) + Post(c), h) && Between(c, h, n) && id !in h
    ensures forall x :: x in Pre(c) + Post(c) ==> !Overlap(h[x], n)
    ensures Ordered(Pre(c) + [id] + Post(c), h[id := n])
  {
    var a, b := Pre(c), Post(c);
    var s, h' := a + [id] + b, h[id := n];
    forall i, j | 0 <= i < j < |s|
      ensures Before(h'[s[i]], h'[s[j]])
    {
      if i < |a| { assert s[i] == a[i] == (a + b)[i] && a[i] in a; }
      if i > |a| { assert s[i] == b[i - |a| - 1] == (a + b)[i - 1]; }
      if j < |a| { assert s[j] == a[j] == (a + b)[j]; }
      if j > |a| { assert s[j] == b[j - |a| - 1] == (a + b)[j - 1] && b[j - |a| - 1] in b; }
    }
  }

  // ----- what the operations do, on the pieces linked in the tree

  /** Logging `n`: everything that overlaps it goes. */
  function Logged(m: Heap, id: PieceId, n: Piece): Heap {
    (map x | x in m && !Overlap(m[x], n) :: m[x])[id := n]
  }

  /** The calls that change pieces in the tree: log_io_piece on its sorted path, unlog_io_piece,
      trim_io_piece, the landing of a write, and prune_io_piece_log. */
  datatype Event =
    | LogWrite(n: Piece)
    | Unlog(id: PieceId)
    | Shorten(id: PieceId, len: nat)
    | Land(id: PieceId)
    | Prune

  /** What each does to the pieces in the tree; `next` is the name a logged piece gets.  Pieces that
      are not in the tree are none of its business. */
  function TreeStep(m: Heap, next: PieceId, e: Event): Heap {
    match e
    case LogWrite(n) => Logged(m, next, n)
    case Unlog(id) => m - {id}
    case Shorten(id, len) => if id in m then m[id := m[id].(len := len)] else m
    case Land(id) => if id in m then m[id := m[id].(inFlight := false)] else m
    case Prune => map[]
  }

  function Linked(s: seq<PieceId>, h: Heap): Heap
    requires InHeap(s, h)
  {
    map x | x in s :: h[x]
  }

  /** One removal of the restart loop. */
  ghost predicate Erased(t: Tree, h: Heap, x: PieceId, t': Tree, h': Heap) {
    && InOrder(t') == Without(InOrder(t), x)
    && (h' == h || h' == h - {x})
  }

  lemma EraseKeeps(t: Tree, h: Heap, x: PieceId, t': Tree, h': Heap)
    requires Ordered(InOrder(t), h) && x in InOrder(t) && Erased(t, h, x, t', h')
    ensures Ordered(InOrder(t'), h') && forall y :: y in InOrder(t') <==> y in InOrder(t) && y != x
  {
    WithoutOrdered(InOrder(t), h, x);
  }

  /** Where the loop stands: of the pieces linked at the start, `s0` in heap `h0`, exactly some
      that overlap `n` are gone. */
  ghost predicate Reduced(s0: seq<PieceId>, h0: Heap, s: seq<PieceId>, h: Heap, n: Piece)
    requires InHeap(s0, h0)
  {
    && (forall x :: x in s ==> x in s0 && x in h && h[x] == h0[x])
    && (forall x :: x in s0 ==> x in s || Overlap(h0[x], n))
  }

  /** When nothing left overlaps, what is left is what logging keeps. */
  lemma ReducedToLogged(s0: seq<PieceId>, h0: Heap, s: seq<PieceId>, h: Heap, id: PieceId, n: Piece, s': seq<PieceId>)
    requires InHeap(s0, h0) && Reduced(s0, h0, s, h, n) && id !in s
    requires forall x :: x in s ==> !Overlap(h[x], n)
    requires forall x :: x in s' <==> x in s || x == id
    ensures Linked(s', h[id := n]) == Logged(Linked(s0, h0), id, n)
  {
    var a, b := Linked(s', h[id := n]), Logged(Linked(s0, h0), id, n);
    assert forall x :: x in a <==> x in b;
    assert forall x :: x in a ==> a[x] == b[x];
  }

  function Missing(s0: seq<PieceId>, s: seq<PieceId>): set<PieceId> {
    set x | x in s0 && x !in s
  }

  /** The record log_io_piece makes for a write, on the sorted path or the other. */
  function Written(file: nat, off: nat, len: nat, overlapRisk: bool): Piece {
    Piece(file, off, len, true, overlapRisk, !overlapRisk)
  }

  /** The pieces in `m` that a new piece overlaps. */
  function Overlapped(m: Heap, n: Piece): set<PieceId> {
    set x | x in m && Overlap(m[x], n)
  }

  /** The pieces that logging `n` removes: none if it goes on the list. */
  function Superseded(m: Heap, n: Piece): set<PieceId> {
    if n.onRb then Overlapped(m, n) else {}
  }

  /** Those of them that are freed with their removal: a piece in flight is not. */
  function Freed(m: Heap, gone: set<PieceId>): set<PieceId> {
    set x | x in gone && x in m && !m[x].inFlight
  }

  /** The list with some entries taken off, the others in their order. */
  function Except(s: seq<PieceId>, gone: set<PieceId>): seq<PieceId> {
    if s == [] then [] else if s[0] in gone then Except(s[1..], gone) else [s[0]] + Except(s[1..], gone)
  }

  lemma {:induction false} ExceptIn(s: seq<PieceId>, gone: set<PieceId>)
    ensures forall x :: x in Except(s, gone) <==> x in s && x !in gone
  {
    if s != [] {
      ExceptIn(s[1..], gone);
      assert s == [s[0]] + s[1..];
    }
  }

  /** Who is on the trim list once a piece has been logged. */
  lemma TrimEntries(trim: seq<PieceId>, gone: set<PieceId>, id: PieceId, shouldTrim: bool)
    requires id !in trim
    ensures id !in Except(trim, gone) && Except(trim, gone) + [] == Except(trim, gone)
    ensures var after := Except(trim, gone) + if shouldTrim then [id] else [];
      && (id in after <==> shouldTrim)
      && forall x :: x != id ==> (x in after <==> x in trim && x !in gone)
  {
    ExceptIn(trim, gone);
  }

  lemma {:induction false} ExceptNone(s: seq<PieceId>)
    ensures Except(s, {}) == s
  {
    if s != [] { ExceptNone(s[1..]); }
  }

  lemma {:induction false} ExceptOne(s: seq<PieceId>, gone: set<PieceId>, x: PieceId)
    requires NoDup(s)
    ensures Without(Except(s, gone), x) == Except(s, gone + {x})
  {
    if s != [] {
      assert s == [s[0]] + s[1..] && s[0] !in s[1..] && NoDup(s[1..]);
      ExceptOne(s[1..], gone, x);
      ExceptIn(s[1..], gone);
      ExceptAlready(s[1..], gone, x);
    }
  }

  /** Taking off what is not on the list changes nothing. */
  lemma {:induction false} ExceptAlready(s: seq<PieceId>, gone: set<PieceId>, x: PieceId)
    ensures x !in s ==> Except(s, gone + {x}) == Except(s, gone)
  {
    if s != [] && x !in s {
      assert s == [s[0]] + s[1..];
      ExceptAlready(s[1..], gone, x);
    }
  }

  /** And how far trim list and heap have followed: the missing pieces are off the list, and freed
      unless in flight. */
  ghost predicate Followed(s0: seq<PieceId>, h0: Heap, trim0: seq<PieceId>, s: seq<PieceId>, h: Heap, trim: seq<PieceId>)
    requires InHeap(s0, h0)
  {
    trim == Except(trim0, Missing(s0, s)) && h == h0 - Freed(Linked(s0, h0), Missing(s0, s))
  }

  /** While the log is pruned: the pieces in `gone` are freed and off the trim list. */
  predicate Pruned(h0: Heap, trim0: seq<PieceId>, h: Heap, trim: seq<PieceId>, gone: set<PieceId>) {
    h == h0 - gone && trim == Except(trim0, gone)
  }

  lemma PrunedOne(h0: Heap, trim0: seq<PieceId>, h: Heap, trim: seq<PieceId>, gone: set<PieceId>, x: PieceId)
    requires Pruned(h0, trim0, h, trim, gone) && NoDup(trim0)
    ensures Pruned(h0, trim0, h - {x}, Without(trim, x), gone + {x})
  {
    ExceptOne(trim0, gone, x);
  }

  lemma FollowedStart(s0: seq<PieceId>, h0: Heap, trim0: seq<PieceId>)
    requires InHeap(s0, h0)
    ensures Followed(s0, h0, trim0, s0, h0, trim0)
  {
    ExceptNone(trim0);
    assert Missing(s0, s0) == {};
  }

  lemma FollowedErase(s0: seq<PieceId>, h0: Heap, trim0: seq<PieceId>, s: seq<PieceId>, h: Heap, trim: seq<PieceId>,
                      x: PieceId, s': seq<PieceId>, h': Heap, trim': seq<PieceId>)
    requires InHeap(s0, h0) && NoDup(trim0) && Followed(s0, h0, trim0, s, h, trim)
    requires x in s && x in s0 && x in h && h[x] == h0[x] && (forall y :: y in s' <==> y in s && y != x)
    requires trim' == Without(trim, x) && h' == if h[x].inFlight then h else h - {x}
    ensures Followed(s0, h0, trim0, s', h', trim')
  {
    ExceptOne(trim0, Missing(s0, s), x);
    assert Missing(s0, s') == Missing(s0, s) + {x};
  }

  /** When nothing left overlaps, what is missing is what overlapped. */
  lemma AllMissing(s0: seq<PieceId>, h0: Heap, s: seq<PieceId>, h: Heap, n: Piece)
    requires InHeap(s0, h0) && Reduced(s0, h0, s, h, n)
    requires forall x :: x in s ==> !Overlap(h[x], n)
    ensures Missing(s0, s) == Overlapped(Linked(s0, h0), n)
  {
  }

  /** The comparison at one node: the side to descend to, and whether the piece overlaps. */
  method Compare(n: Piece, x: Piece) returns (left: bool, overlap: bool)
    ensures overlap == Overlap(x, n)
    ensures !overlap ==> if left then Before(n, x) else Before(x, n)
  {
    left, overlap := true, false;
    if n.file < x.file {
    } else if n.file > x.file {
      left := false;
    } else if n.off < x.off {
      overlap := n.off + n.len > x.off;
    } else if n.off > x.off {
      left := false;
      overlap := x.off + x.len > n.off;
    } else {
      overlap := true;
    }
  }

  class History {
    var tree: Tree
    var list: seq<PieceId>
    var heap: Heap
    var histLen: int
    var trim: seq<PieceId>
    var next: PieceId
    const rb: Balancer

    ghost predicate Valid()
      reads this
    {
      && rb.Faithful()
      && Ordered(InOrder(tree), heap)
      && InHeap(list, heap) && NoDup(list)
      && NoDup(trim) && (forall x :: x in heap || x in trim ==> x < next)
      && (forall x :: x in InOrder(tree) ==> heap[x].onRb)
      && (forall x :: x in list ==> !heap[x].onRb && heap[x].onList)
      && histLen == |InOrder(tree)| + |list|
    }

    /** The pieces linked in the tree. */
    ghost function InTree(): Heap
      requires Valid()
      reads this
    {
      Linked(InOrder(tree), heap)
    }

    /** Every piece on the trim list is linked. */
    ghost predicate TrimLive()
      reads this
    {
      forall x :: x in trim ==> x in InOrder(tree) || x in list
    }

    constructor (rb: Balancer)
      requires rb.Faithful()
      ensures Valid() && InTree() == map[] && list == [] && trim == [] && next == 0
    {
      tree, list, heap, histLen, trim, next := Leaf, [], map[], 0, [], 0;
      this.rb := rb;
    }

    /** log_io_piece. */
    method LogIoPiece(file: nat, off: nat, len: nat, shouldTrim: bool, overlapRisk: bool) returns (id: PieceId)
      requires Valid()
      modifies this
      ensures Valid() && id == old(next) && next == old(next) + 1
      ensures list == if overlapRisk then old(list) else old(list) + [id]
      ensures InTree() == if overlapRisk then TreeStep(old(InTree()), old(next), LogWrite(Written(file, off, len, true)))
                          else old(InTree())
      ensures heap == (old(heap) - Freed(old(InTree()), Superseded(old(InTree()), Written(file, off, len, overlapRisk))))
                      [id := Written(file, off, len, overlapRisk)]
      ensures trim == Except(old(trim), Superseded(old(InTree()), Written(file, off, len, overlapRisk)))
                      + if shouldTrim then [id] else []
      ensures id in trim <==> shouldTrim
      ensures forall x :: x != id ==>
        (x in trim <==> x in old(trim) && x !in Superseded(old(InTree()), Written(file, off, len, overlapRisk)))
      ensures old(TrimLive()) ==> TrimLive()
    {
      id := next;
      ghost var trim0, n := trim, Written(file, off, len, overlapRisk);
      ghost var gone := Superseded(InTree(), n);
      if overlapRisk {
        InsertSorted(id, Written(file, off, len, true));
      } else {
        ExceptNone(trim);
        AppendToList(id, Written(file, off, len, false));
      }
      TrimEntries(trim0, gone, id, shouldTrim);
      if shouldTrim {
        TrimLater(id);
      }
    }

    /** The piece joins the trim list. */
    method TrimLater(id: PieceId)
      requires Valid() && id !in trim && id < next
      modifies this`trim
      ensures Valid() && trim == old(trim) + [id]
    {
      NoDupSnoc(trim, id);
      trim := trim + [id];
    }

    /** The unsorted path of log_io_piece. */
    method AppendToList(id: PieceId, n: Piece)
      requires Valid() && id == next && !n.onRb && n.onList
      modifies this`list, this`heap, this`histLen, this`next
      ensures Valid() && InTree() == old(InTree()) && list == old(list) + [id]
      ensures heap == old(heap)[id := n] && next == old(next) + 1
    {
      heap := heap[id := n];
      NoDupSnoc(list, id);
      list := list + [id];
      histLen := histLen + 1;
      next := next + 1;
    }

    /** rb_erase of an overlapping piece; it is freed unless still in flight. */
    method EraseOverlapping(x: PieceId, n: Piece)
      requires Valid() && x in InOrder(tree) && Overlap(heap[x], n)
      modifies this`tree, this`heap, this`histLen, this`trim
      ensures Valid() && |InOrder(tree)| < |old(InOrder(tree))|
      ensures forall y :: y in InOrder(tree) <==> y in old(InOrder(tree)) && y != x
      ensures heap == if old(heap)[x].inFlight then old(heap) else old(heap) - {x}
      ensures trim == Without(old(trim), x)
    {
      ghost var t, h := tree, heap;
      histLen := histLen - 1;
      tree := rb.erase(tree, x);
      WithoutNoDup(trim, x);
      trim := Without(trim, x);
      if !heap[x].inFlight {
        heap := heap - {x};
      }
      EraseKeeps(t, h, x, tree, heap);
    }

    /** rb_link_node at the empty link, rb_insert_color, and the flag. */
    method LinkHere(ctx: Ctx, id: PieceId, n: Piece)
      requires Valid() && Plug(ctx, Leaf) == tree && Between(ctx, heap, n) && id == next && n.onRb
      modifies this`tree, this`heap, this`histLen, this`next
      ensures Valid() && heap == old(heap)[id := n] && next == old(next) + 1
      ensures old(InOrder(tree)) == Pre(ctx) + Post(ctx) && InOrder(tree) == Pre(ctx) + [id] + Post(ctx)
      ensures forall x :: x in old(InOrder(tree)) ==> !Overlap(old(heap)[x], n)
    {
      LinkInOrder(rb, ctx, id);
      DescentComplete(ctx, heap, id, n);
      tree := rb.insertColor(Plug(ctx, Node(Leaf, id, Leaf)));
      heap := heap[id := n];
      histLen := histLen + 1;
      next := next + 1;
    }

    /** One descent: it ends at a piece that overlaps `n`, or at an empty link. */
    method Descend(n: Piece) returns (ctx: Ctx, hit: Option<PieceId>)
      requires Valid()
      ensures hit.Some? ==> hit.value in InOrder(tree) && Overlap(heap[hit.value], n)
      ensures hit.None? ==> Plug(ctx, Leaf) == tree && Between(ctx, heap, n)
    {
      var cur := tree;
      ctx := Top;
      while cur.Node?
        invariant Plug(ctx, cur) == tree && Between(ctx, heap, n)
        decreases cur
      {
        PlugInOrder(ctx, cur);
        assert cur.id in InOrder(tree);
        var left, overlap := Compare(n, heap[cur.id]);
        if overlap {
          return ctx, Some(cur.id);
        }
        if left {
          GoLeft(ctx, cur, heap, n);
          ctx, cur := GoneLeft(cur.id, cur.right, ctx), cur.left;
        } else {
          GoRight(ctx, cur, heap, n);
          ctx, cur := GoneRight(cur.left, cur.id, ctx), cur.right;
        }
      }
      hit := None;
    }

    /** The sorted path of log_io_piece: descend, removing any piece that overlaps and starting
        again, until an empty link is reached. */
    method InsertSorted(id: PieceId, n: Piece)
      requires Valid() && id == next && n.onRb
      modifies this`tree, this`heap, this`histLen, this`trim, this`next
      ensures Valid() && next == old(next) + 1
      ensures InTree() == TreeStep(old(InTree()), old(next), LogWrite(n)) && id in InOrder(tree)
      ensures trim == Except(old(trim), Overlapped(old(InTree()), n)) && list == old(list)
      ensures forall x :: x in trim ==> x in old(trim) && (x in old(InOrder(tree)) ==> x in InOrder(tree))
      ensures heap == (old(heap) - Freed(old(InTree()), Overlapped(old(InTree()), n)))[id := n]
    {
      ghost var s0, h0, trim0 := InOrder(tree), heap, trim;
      FollowedStart(s0, h0, trim0);
      var ctx, hit := Descend(n);
      while hit.Some?
        invariant Valid() && next == id
        invariant hit.Some? ==> hit.value in InOrder(tree) && Overlap(heap[hit.value], n)
        invariant hit.None? ==> Plug(ctx, Leaf) == tree && Between(ctx, heap, n)
        invariant Reduced(s0, h0, InOrder(tree), heap, n)
        invariant Followed(s0, h0, trim0, InOrder(tree), heap, trim)
        decreases |InOrder(tree)|
      {
        ghost var s, h, tr := InOrder(tree), heap, trim;
        EraseOverlapping(hit.value, n);
        FollowedErase(s0, h0, trim0, s, h, tr, hit.value, InOrder(tree), heap, trim);
        ctx, hit := Descend(n);
      }
      ghost var s, h := InOrder(tree), heap;
      LinkHere(ctx, id, n);
      ExceptIn(trim0, Missing(s0, s));
      AllMissing(s0, h0, s, h, n);
      ReducedToLogged(s0, h0, s, h, id, n, InOrder(tree));
    }

    /** io_completed clears the in-flight flag of a piece that is still recorded. */
    method MarkLanded(x: PieceId)
      requires Valid() && x in heap
      modifies this`heap
      ensures Valid() && heap == old(heap)[x := old(heap)[x].(inFlight := false)]
      ensures InTree() == TreeStep(old(InTree()), old(next), Land(x))
    {
      heap := heap[x := heap[x].(inFlight := false)];
    }

    method UnlinkFromTree(x: PieceId)
      requires Valid() && x in InOrder(tree)
      modifies this`tree, this`heap, this`histLen
      ensures Valid() && heap == old(heap) - {x} && histLen == old(histLen) - 1
      ensures InTree() == old(InTree()) - {x}
      ensures forall y :: y in InOrder(tree) <==> y in old(InOrder(tree)) && y != x
    {
      ghost var t, h := InOrder(tree), heap;
      tree := rb.erase(tree, x);
      heap := heap - {x};
      histLen := histLen - 1;
      UnlinkedOrdered(t, h, x, InOrder(tree), heap);
    }

    method UnlinkFromList(x: PieceId)
      requires Valid() && x in list
      modifies this`list, this`heap, this`histLen
      ensures Valid() && heap == old(heap) - {x} && histLen == old(histLen) - 1
      ensures InTree() == old(InTree()) && list == Without(old(list), x)
      ensures forall y :: y in list <==> y in old(list) && y != x
    {
      WithoutNoDup(list, x);
      list := Without(list, x);
      heap := heap - {x};
      histLen := histLen - 1;
    }

    /** unlog_io_piece, for a unit without a piece or with one that is still linked.  The trim list
        is not touched, so its entries stay live exactly when the piece was not on it. */
    method UnlogIoPiece(ipo: Option<PieceId>)
      requires Valid() && (ipo.Some? ==> ipo.value in InOrder(tree) || ipo.value in list)
      modifies this`tree, this`list, this`heap, this`histLen
      ensures Valid()
      ensures ipo.None? ==> heap == old(heap) && histLen == old(histLen) && tree == old(tree) && list == old(list)
      ensures ipo.Some? ==>
        && heap == old(heap) - {ipo.value} && histLen == old(histLen) - 1
        && InTree() == TreeStep(old(InTree()), old(next), Unlog(ipo.value))
        && list == Without(old(list), ipo.value)
      ensures ipo.Some? && old(TrimLive()) ==> (TrimLive() <==> ipo.value !in trim)
    {
      if ipo.Some? {
        if heap[ipo.value].onRb {
          UnlinkFromTree(ipo.value);
        } else {
          UnlinkFromList(ipo.value);
        }
      }
    }

    /** trim_io_piece: the piece, if any, shrinks to the bytes that were moved. */
    method TrimIoPiece(ipo: Option<PieceId>, len: nat)
      requires Valid()
      requires ipo.Some? ==>
        (ipo.value in InOrder(tree) || ipo.value in list) && ipo.value in heap && len <= heap[ipo.value].len
      modifies this`heap
      ensures Valid()
      ensures heap == if ipo.None? then old(heap) else old(heap)[ipo.value := old(heap)[ipo.value].(len := len)]
      ensures InTree() ==
        if ipo.Some? then TreeStep(old(InTree()), old(next), Shorten(ipo.value, len)) else old(InTree())
    {
      if ipo.Some? {
        ghost var h := heap;
        heap := heap[ipo.value := heap[ipo.value].(len := len)];
        ShortenOrdered(InOrder(tree), h, ipo.value, len);
      }
    }

    /** prune_io_piece_log: both halves are emptied, their pieces freed and off the trim list. */
    method PruneIoPieceLog()
      requires Valid()
      modifies this
      ensures Valid() && tree == Leaf && list == [] && histLen == 0 && next == old(next)
      ensures InTree() == TreeStep(old(InTree()), old(next), Prune)
      ensures Pruned(old(heap), old(trim), heap, trim, Elements(old(InOrder(tree))) + Elements(old(list)))
    {
      ghost var h0, trim0, s0 := heap, trim, Elements(InOrder(tree));
      PruneTree();
      PruneList(h0, trim0, s0);
      assert InOrder(Leaf) == [];
    }

    /** The loop over the tree. */
    method PruneTree()
      requires Valid()
      modifies this`tree, this`heap, this`trim, this`histLen
      ensures Valid() && tree == Leaf
      ensures Pruned(old(heap), old(trim), heap, trim, Elements(old(InOrder(tree))))
    {
      ghost var h0, trim0 := heap, trim;
      ghost var gone: set<PieceId> := {};
      ExceptNone(trim);
      while tree.Node?
        invariant Valid() && gone + Elements(InOrder(tree)) == Elements(old(InOrder(tree)))
        invariant Pruned(h0, trim0, heap, trim, gone)
        decreases |InOrder(tree)|
      {
        ghost var h, tr := heap, trim;
        var x := PruneFirst();
        PrunedOne(h0, trim0, h, tr, gone, x);
        gone := gone + {x};
      }
      assert gone + Elements([]) == gone && InOrder(Leaf) == [];
    }

    /** The loop over the list; `h0` and `trim0` are what there was when pruning began, and `gone`
        are the pieces pruned already. */
    method PruneList(ghost h0: Heap, ghost trim0: seq<PieceId>, ghost gone: set<PieceId>)
      requires Valid() && NoDup(trim0) && Pruned(h0, trim0, heap, trim, gone)
      modifies this`list, this`heap, this`trim, this`histLen
      ensures Valid() && list == []
      ensures Pruned(h0, trim0, heap, trim, gone + Elements(old(list)))
    {
      ghost var done := gone;
      while list != []
        invariant Valid() && done + Elements(list) == gone + Elements(old(list))
        invariant Pruned(h0, trim0, heap, trim, done)
        decreases |list|
      {
        PrunedOne(h0, trim0, heap, trim, done, list[0]);
        done := done + {list[0]};
        PruneListFirst();
      }
      assert done + Elements([]) == done;
    }

    /** flist_del, remove_trim_entry and free. */
    method PruneListFirst()
      requires Valid() && list != []
      modifies this`list, this`heap, this`trim, this`histLen
      ensures Valid() && list == old(list)[1..] && heap == old(heap) - {old(list)[0]}
      ensures Elements(old(list)) == Elements(list) + {old(list)[0]}
      ensures trim == Without(old(trim), old(list)[0])
    {
      assert list == [list[0]] + list[1..] && list[0] !in list[1..];
      WithoutNoDup(trim, list[0]);
      trim := Without(trim, list[0]);
      heap := heap - {list[0]};
      list := list[1..];
      histLen := histLen - 1;
    }

    /** rb_first, rb_erase, remove_trim_entry and free. */
    method PruneFirst() returns (x: PieceId)
      requires Valid() && tree.Node?
      modifies this`tree, this`heap, this`trim, this`histLen
      ensures Valid() && |InOrder(tree)| < |old(InOrder(tree))| && x in old(InOrder(tree))
      ensures heap == old(heap) - {x} && trim == Without(old(trim), x)
      ensures forall y :: y in InOrder(tree) <==> y in old(InOrder(tree)) && y != x
    {
      var first := tree;
      while first.left.Node?
        invariant first.Node? && forall y :: y in InOrder(first) ==> y in InOrder(tree)
        decreases first
      {
        first := first.left;
      }
      x := first.id;
      assert x in InOrder(first);
      UnlinkFromTree(x);
      WithoutNoDup(trim, x);
      trim := Without(trim, x);
    }
  }

  // ----- a trim list that outlives its pieces

  /** A tree without left branches. */
  function Spine(s: seq<PieceId>): (t: Tree)
    ensures InOrder(t) == s
  {
    if s == [] then Leaf else Node(Leaf, s[0], Spine(s[1..]))
  }

  /** A balancer that keeps no balance at all. */
  const SPINES := Balancer((t: Tree, x: PieceId) => Spine(Without(InOrder(t), x)), (t: Tree) => t)

  lemma SpinesFaithful()
    ensures SPINES.Faithful()
  {
  }

  method EmptyHistory() returns (h: History)
    ensures fresh(h) && h.Valid() && h.list == [] && h.trim == [] && h.TrimLive()
  {
    SpinesFaithful();
    h := new History(SPINES);
  }

  /** One write is logged, to be trimmed later. */
  method OneTrimWrite(overlapRisk: bool) returns (h: History, id: PieceId)
    ensures fresh(h) && h.Valid() && h.TrimLive() && id in h.trim && (id in InOrder(h.tree) || id in h.list)
  {
    h := EmptyHistory();
    id := h.LogIoPiece(0, 0, 512, true, overlapRisk);
  }

  /** The write fails and is unlogged: its piece is freed and still on the trim list. */
  method FailedTrimWrite(overlapRisk: bool) returns (h: History, id: PieceId)
    ensures fresh(h) && h.Valid() && id in h.trim && id !in h.heap && !h.TrimLive()
  {
    h, id := OneTrimWrite(overlapRisk);
    h.UnlogIoPiece(Some(id));
  }
}
