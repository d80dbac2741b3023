/** The hash part of a Lua table as a value: a chained scatter table with Brent's variation.
    `gnext` is an offset between nodes; nodes hold a key, a value and an offset. */
module TableCore {

  /** Floats are opaque, except that those with an integral value are known. */
  datatype Float = Integral(i: int) | Fraction(id: int) | NaN

  datatype Key = NilKey | IntKey(i: int) | FloatKey(f: Float) | OtherKey(id: int)

  datatype Value = Nil | Val(id: int)

  datatype Node = Node(key: Key, val: Value, next: int)

  /** `mainposition`: key and number of nodes to an index. */
  type MainPosition = mp: (Key, nat) -> nat | forall k, n :: n > 0 ==> mp(k, n) < n
    witness (k, n) => 0

  const FREE := Node(NilKey, Nil, 0)

  /** Keys are kept in the form they are compared in: no nil, no float with an integral value, no NaN. */
  predicate Stored(k: Key) {
    match k
    case NilKey => false
    case FloatKey(f) => f.Fraction?
    case _ => true
  }

  function Main(mp: MainPosition, nodes: seq<Node>, k: Key): nat
    requires |nodes| > 0
    ensures Main(mp, nodes, k) < |nodes|
  {
    mp(k, |nodes|)
  }

  // ---- chains ----

  /** Following s links from node a leads to node b. */
  ghost predicate Reaches(nodes: seq<Node>, a: int, b: int, s: nat)
    decreases s
  {
    0 <= a < |nodes| &&
    if s == 0 then a == b else nodes[a].next != 0 && Reaches(nodes, Succ(nodes, a), b, s - 1)
  }

  ghost predicate Leads(nodes: seq<Node>, a: int, b: int) {
    exists s: nat :: Reaches(nodes, a, b, s)
  }

  function Succ(nodes: seq<Node>, i: int): int
    requires 0 <= i < |nodes|
  {
    i + nodes[i].next
  }

  /** Links go to used nodes, and never in circles: rank grows along them. */
  ghost predicate Rising(nodes: seq<Node>, rank: seq<real>) {
    |rank| == |nodes| &&
    forall i :: 0 <= i < |nodes| && nodes[i].next != 0 ==>
      0 <= Succ(nodes, i) < |nodes| && rank[i] < rank[Succ(nodes, i)] &&
      nodes[Succ(nodes, i)].key != NilKey && nodes[i].key != NilKey
  }

  /** No two links go to the same node. */
  ghost predicate Apart(nodes: seq<Node>) {
    forall i, j :: 0 <= i < |nodes| && 0 <= j < |nodes| && i != j && nodes[i].next != 0 && nodes[j].next != 0 ==>
      Succ(nodes, i) != Succ(nodes, j)
  }

  /** The links form disjoint paths without circles. */
  ghost predicate Linked(nodes: seq<Node>, rank: seq<real>) { Rising(nodes, rank) && Apart(nodes) }

  /** Free nodes are empty, used ones hold storable keys, and no key is held twice. */
  ghost predicate Keyed(nodes: seq<Node>) {
    (forall i :: 0 <= i < |nodes| ==> (nodes[i].key == NilKey ==> nodes[i].val == Nil)) &&
    (forall i :: 0 <= i < |nodes| ==> (nodes[i].key != NilKey ==> Stored(nodes[i].key))) &&
    (forall i, j :: 0 <= i < j < |nodes| && nodes[i].key != NilKey ==> nodes[i].key != nodes[j].key)
  }

  /** A main position that any key has is held by a key whose own main position it is. */
  ghost predicate Brent(mp: MainPosition, nodes: seq<Node>)
    requires |nodes| > 0
  {
    forall i :: 0 <= i < |nodes| && nodes[i].key != NilKey ==>
      var m := Main(mp, nodes, nodes[i].key);
      nodes[m].key != NilKey && Main(mp, nodes, nodes[m].key) == m
  }

  /** Every key is found by walking from its main position. */
  ghost predicate Reachable(mp: MainPosition, nodes: seq<Node>)
    requires |nodes| > 0
  {
    forall i :: 0 <= i < |nodes| && nodes[i].key != NilKey ==>
      Leads(nodes, Main(mp, nodes, nodes[i].key), i)
  }

  ghost predicate Scatter(mp: MainPosition, nodes: seq<Node>, rank: seq<real>) {
    |nodes| > 0 && Linked(nodes, rank) && Keyed(nodes) && Brent(mp, nodes) && Reachable(mp, nodes)
  }

  // ---- finding ----

  /** Index of the node that holds k, or the number of nodes. */
  function FindFrom(nodes: seq<Node>, k: Key, i: nat): (r: nat)
    requires i <= |nodes|
    ensures i <= r <= |nodes|
    ensures r < |nodes| ==> nodes[r].key == k
    ensures forall j :: i <= j < r ==> nodes[j].key != k
    decreases |nodes| - i
  {
    if i == |nodes| || nodes[i].key == k then i else FindFrom(nodes, k, i + 1)
  }

  function Find(nodes: seq<Node>, k: Key): nat { FindFrom(nodes, k, 0) }

  /** The value that the nodes give to a storable key. */
  function HashLook(nodes: seq<Node>, k: Key): Value {
    var i := Find(nodes, k);
    if i < |nodes| then nodes[i].val else Nil
  }

  lemma FindIs(nodes: seq<Node>, k: Key, i: nat)
    requires Keyed(nodes) && i < |nodes| && nodes[i].key == k && k != NilKey
    ensures Find(nodes, k) == i
  {
  }

  /** One more link at the front. */
  lemma LeadsStep(nodes: seq<Node>, a: int, b: int)
    requires 0 <= a < |nodes| && Leads(nodes, a, b) && a != b
    ensures nodes[a].next != 0 && Leads(nodes, Succ(nodes, a), b)
  {
    var s: nat :| Reaches(nodes, a, b, s);
    assert Reaches(nodes, Succ(nodes, a), b, s - 1);
  }

  lemma LeadsCons(nodes: seq<Node>, a: int, b: int)
    requires 0 <= a < |nodes| && nodes[a].next != 0 && Leads(nodes, Succ(nodes, a), b)
    ensures Leads(nodes, a, b)
  {
    var s: nat :| Reaches(nodes, Succ(nodes, a), b, s);
    assert Reaches(nodes, a, b, s + 1);
  }

  lemma LeadsSelf(nodes: seq<Node>, a: int)
    requires 0 <= a < |nodes|
    ensures Leads(nodes, a, a)
  {
    assert Reaches(nodes, a, a, 0);
  }

  // ---- inserting a key: three ways ----

  /** The main position holds no live value: the key takes the node over, in whatever chain it is. */
  function TakeOver(nodes: seq<Node>, m: nat, k: Key): seq<Node>
    requires m < |nodes|
  {
    nodes[m := Node(k, Nil, nodes[m].next)]
  }

  /** The main position is held by a key of its own: the new key goes to the free node f, chained in
      right after it. */
  function ChainIn(nodes: seq<Node>, m: nat, f: nat, k: Key): seq<Node>
    requires m < |nodes| && f < |nodes|
  {
    nodes[f := Node(k, Nil, if nodes[m].next != 0 then m + nodes[m].next - f else nodes[f].next)]
         [m := nodes[m].(next := f - m)]
  }

  /** The main position is held by a strayed key: that one moves to the free node f, its predecessor p
      in the chain is redirected, and the new key takes the main position with a chain of its own. */
  function Relocate(nodes: seq<Node>, m: nat, p: nat, f: nat, k: Key): seq<Node>
    requires m < |nodes| && f < |nodes| && p < |nodes|
  {
    nodes[p := nodes[p].(next := f - p)]
         [f := Node(nodes[m].key, nodes[m].val, if nodes[m].next != 0 then nodes[m].next + (m - f) else 0)]
         [m := Node(k, Nil, 0)]
  }

  /** What an insertion must achieve: k is there with no value yet, everything else as before. */
  ghost predicate Inserted(nodes: seq<Node>, nodes': seq<Node>, k: Key, at: nat) {
    |nodes'| == |nodes| && at < |nodes| && nodes'[at].key == k && nodes'[at].val == Nil &&
    (forall k' :: HashLook(nodes', k') == HashLook(nodes, k')) &&
    (forall i :: 0 <= i < |nodes| && nodes[i].key != NilKey ==> nodes'[i].key != NilKey) &&
    (forall i :: 0 <= i < |nodes| && nodes'[i].key != NilKey && nodes'[i].key != k ==>
            Find(nodes, nodes'[i].key) < |nodes|)
  }

  /** Two node vectors that give every key the same value: where a key has a live value in one,
      some node of the other holds both. */
  lemma SameLook(nodes: seq<Node>, nodes': seq<Node>, k: Key)
    requires |nodes'| == |nodes| && Keyed(nodes) && Keyed(nodes')
    requires forall i :: 0 <= i < |nodes| && nodes[i].val != Nil ==>
               exists j :: 0 <= j < |nodes| && nodes'[j].key == nodes[i].key && nodes'[j].val == nodes[i].val
    requires forall i :: 0 <= i < |nodes| && nodes'[i].val != Nil ==>
               exists j :: 0 <= j < |nodes| && nodes[j].key == nodes'[i].key && nodes[j].val == nodes'[i].val
    ensures HashLook(nodes', k) == HashLook(nodes, k)
  {
    if HashLook(nodes, k) != Nil {
      var i := Find(nodes, k);
      var j :| 0 <= j < |nodes| && nodes'[j].key == nodes[i].key && nodes'[j].val == nodes[i].val;
      FindIs(nodes', k, j);
    } else if HashLook(nodes', k) != Nil {
      var i := Find(nodes', k);
      var j :| 0 <= j < |nodes| && nodes[j].key == nodes'[i].key && nodes[j].val == nodes'[i].val;
      FindIs(nodes, k, j);
    }
  }

  // -- the key takes a node over --

  lemma {:induction false} TakeOverReaches(nodes: seq<Node>, m: nat, k: Key, a: int, b: int, s: nat)
    requires m < |nodes| && Reaches(nodes, a, b, s)
    ensures Reaches(TakeOver(nodes, m, k), a, b, s)
    decreases s
  {
    if s > 0 {
      TakeOverReaches(nodes, m, k, Succ(nodes, a), b, s - 1);
    }
  }

  lemma TakeOverLinked(nodes: seq<Node>, rank: seq<real>, m: nat, k: Key)
    requires Linked(nodes, rank) && m < |nodes| && k != NilKey
    ensures Linked(TakeOver(nodes, m, k), rank)
  {
    var nodes' := TakeOver(nodes, m, k);
    assert forall i :: 0 <= i < |nodes| ==> nodes'[i].next == nodes[i].next && Succ(nodes', i) == Succ(nodes, i);
  }

  lemma TakeOverScatter(mp: MainPosition, nodes: seq<Node>, rank: seq<real>, m: nat, k: Key)
    requires Scatter(mp, nodes, rank) && Stored(k) && Find(nodes, k) == |nodes|
    requires m == Main(mp, nodes, k)
    ensures Scatter(mp, TakeOver(nodes, m, k), rank)
  {
    hide HashLook;
    var nodes' := TakeOver(nodes, m, k);
    assert Keyed(nodes') by { hide Brent, Reachable, Linked; }
    assert Brent(mp, nodes') by { hide Reachable, Linked, Keyed; }
    TakeOverLinked(nodes, rank, m, k);
    hide Keyed, Linked, Brent, Reaches;
    forall i | 0 <= i < |nodes| && nodes'[i].key != NilKey
      ensures Leads(nodes', Main(mp, nodes', nodes'[i].key), i)
    {
      if i == m {
        LeadsSelf(nodes', m);
      } else {
        var a := Main(mp, nodes, nodes[i].key);
        var s: nat :| Reaches(nodes, a, i, s);
        TakeOverReaches(nodes, m, k, a, i, s);
      }
    }
  }

  lemma TakeOverInserts(mp: MainPosition, nodes: seq<Node>, rank: seq<real>, m: nat, k: Key)
    requires Keyed(nodes) && Stored(k) && Find(nodes, k) == |nodes| && m < |nodes| && nodes[m].val == Nil
    ensures Inserted(nodes, TakeOver(nodes, m, k), k, m)
  {
    var nodes' := TakeOver(nodes, m, k);
    assert Keyed(nodes');
    forall k' ensures HashLook(nodes', k') == HashLook(nodes, k') {
      forall i | 0 <= i < |nodes| && (nodes[i].val != Nil || nodes'[i].val != Nil)
        ensures nodes'[i].key == nodes[i].key && nodes'[i].val == nodes[i].val
      {
      }
      SameLook(nodes, nodes', k');
    }
    forall i | 0 <= i < |nodes| && nodes'[i].key != NilKey && nodes'[i].key != k
      ensures Find(nodes, nodes'[i].key) < |nodes|
    {
      FindIs(nodes, nodes[i].key, i);
    }
  }

  // -- the key is chained in after its main position --

  lemma {:induction false} ChainInReaches(nodes: seq<Node>, rank: seq<real>, m: nat, f: nat, k: Key, a: int, b: int,
                                          s: nat)
    requires m < |nodes| && f < |nodes| && m != f && nodes[f].key == NilKey
    requires Linked(nodes, rank) && a != f && Reaches(nodes, a, b, s)
    ensures Leads(ChainIn(nodes, m, f, k), a, b)
    decreases s
  {
    var nodes' := ChainIn(nodes, m, f, k);
    if s == 0 {
      LeadsSelf(nodes', a);
    } else {
      var c := Succ(nodes, a);
      ChainInReaches(nodes, rank, m, f, k, c, b, s - 1);
      if a == m {
        LeadsCons(nodes', f, b);
      }
      LeadsCons(nodes', a, b);
    }
  }

  function ChainInRank(nodes: seq<Node>, rank: seq<real>, m: nat, f: nat): seq<real>
    requires m < |nodes| && f < |nodes| && Linked(nodes, rank)
  {
    rank[f := if nodes[m].next != 0 then (rank[m] + rank[Succ(nodes, m)]) / 2.0 else rank[m] + 1.0]
  }

  lemma ChainInRising(nodes: seq<Node>, rank: seq<real>, m: nat, f: nat, k: Key)
    requires m < |nodes| && f < |nodes| && m != f && nodes[f].key == NilKey && nodes[m].key != NilKey
    requires Rising(nodes, rank) && Apart(nodes) && k != NilKey
    ensures Rising(ChainIn(nodes, m, f, k), ChainInRank(nodes, rank, m, f))
  {
    hide Apart;
    var nodes', rank' := ChainIn(nodes, m, f, k), ChainInRank(nodes, rank, m, f);
    forall i | 0 <= i < |nodes| && nodes'[i].next != 0
      ensures 0 <= Succ(nodes', i) < |nodes'| && rank'[i] < rank'[Succ(nodes', i)]
      ensures nodes'[Succ(nodes', i)].key != NilKey && nodes'[i].key != NilKey
    {
      if i == m {
        assert Succ(nodes', m) == f;
      } else if i == f {
        assert Succ(nodes', f) == Succ(nodes, m);
      } else {
        assert Succ(nodes', i) == Succ(nodes, i) && Succ(nodes, i) != f;
      }
    }
  }

  lemma ChainInApart(nodes: seq<Node>, rank: seq<real>, m: nat, f: nat, k: Key)
    requires m < |nodes| && f < |nodes| && m != f && nodes[f].key == NilKey && nodes[f].next == 0
    requires Apart(nodes) && forall i :: 0 <= i < |nodes| && nodes[i].next != 0 ==> Succ(nodes, i) != f
    ensures Apart(ChainIn(nodes, m, f, k))
  {
    var nodes' := ChainIn(nodes, m, f, k);
    forall i, j | 0 <= i < |nodes| && 0 <= j < |nodes| && i != j && nodes'[i].next != 0 && nodes'[j].next != 0
      ensures Succ(nodes', i) != Succ(nodes', j)
    {
      var i0 := if i == f then m else i;
      var j0 := if j == f then m else j;
      assert i != m ==> Succ(nodes', i) == Succ(nodes, i0);
      assert j != m ==> Succ(nodes', j) == Succ(nodes, j0);
    }
  }

  lemma ChainInLinked(nodes: seq<Node>, rank: seq<real>, m: nat, f: nat, k: Key)
    requires m < |nodes| && f < |nodes| && m != f && nodes[f].key == NilKey && nodes[m].key != NilKey
    requires Linked(nodes, rank) && k != NilKey
    ensures Linked(ChainIn(nodes, m, f, k), ChainInRank(nodes, rank, m, f))
  {
    ChainInRising(nodes, rank, m, f, k);
    ChainInApart(nodes, rank, m, f, k);
  }

  lemma ChainInScatter(mp: MainPosition, nodes: seq<Node>, rank: seq<real>, m: nat, f: nat, k: Key)
    requires Scatter(mp, nodes, rank) && Stored(k) && Find(nodes, k) == |nodes|
    requires m == Main(mp, nodes, k) && nodes[m].key != NilKey && Main(mp, nodes, nodes[m].key) == m
    requires f < |nodes| && nodes[f].key == NilKey
    ensures Scatter(mp, ChainIn(nodes, m, f, k), ChainInRank(nodes, rank, m, f))
  {
    hide HashLook;
    var nodes' := ChainIn(nodes, m, f, k);
    ChainInLinked(nodes, rank, m, f, k);
    assert Keyed(nodes');
    assert Brent(mp, nodes') by { hide Reachable, Linked; }
    forall i | 0 <= i < |nodes| && nodes'[i].key != NilKey
      ensures Leads(nodes', Main(mp, nodes', nodes'[i].key), i)
    {
      if i == f {
        LeadsSelf(nodes', f);
        LeadsCons(nodes', m, f);
      } else {
        var a := Main(mp, nodes, nodes[i].key);
        var s: nat :| Reaches(nodes, a, i, s);
        ChainInReaches(nodes, rank, m, f, k, a, i, s);
      }
    }
  }

  lemma ChainInInserts(nodes: seq<Node>, rank: seq<real>, m: nat, f: nat, k: Key)
    requires Linked(nodes, rank) && Keyed(nodes) && Stored(k) && Find(nodes, k) == |nodes|
    requires m < |nodes| && f < |nodes| && m != f && nodes[f].key == NilKey && nodes[m].key != NilKey
    ensures Inserted(nodes, ChainIn(nodes, m, f, k), k, f)
  {
    var nodes' := ChainIn(nodes, m, f, k);
    assert Keyed(nodes');
    forall k' ensures HashLook(nodes', k') == HashLook(nodes, k') {
      forall i | 0 <= i < |nodes| && (nodes[i].val != Nil || nodes'[i].val != Nil)
        ensures nodes'[i].key == nodes[i].key && nodes'[i].val == nodes[i].val
      {
      }
      SameLook(nodes, nodes', k');
    }
    forall i | 0 <= i < |nodes| && nodes'[i].key != NilKey && nodes'[i].key != k
      ensures Find(nodes, nodes'[i].key) < |nodes|
    {
      FindIs(nodes, nodes[i].key, i);
    }
  }

  // -- the strayed key moves away --

  /** The node p links to m. */
  predicate LinksTo(nodes: seq<Node>, p: int, m: int) {
    0 <= p < |nodes| && nodes[p].next != 0 && Succ(nodes, p) == m
  }

  lemma {:induction false} RelocateReaches(nodes: seq<Node>, rank: seq<real>, m: nat, p: nat, f: nat, k: Key, a: int,
                                           b: int, s: nat)
    requires Linked(nodes, rank) && m < |nodes| && f < |nodes| && LinksTo(nodes, p, m) && nodes[f].key == NilKey
    requires a != m && a != f && b != m && Reaches(nodes, a, b, s)
    ensures Leads(Relocate(nodes, m, p, f, k), a, b)
    decreases s
  {
    var nodes' := Relocate(nodes, m, p, f, k);
    if s == 0 {
      LeadsSelf(nodes', a);
    } else {
      var c := Succ(nodes, a);
      if c == m {
        assert a == p;
        var d := Succ(nodes, m);
        assert s > 1;
        RelocateReaches(nodes, rank, m, p, f, k, d, b, s - 2);
        LeadsCons(nodes', f, b);
      } else {
        RelocateReaches(nodes, rank, m, p, f, k, c, b, s - 1);
      }
      LeadsCons(nodes', a, b);
    }
  }

  lemma {:induction false} RelocateFinds(nodes: seq<Node>, rank: seq<real>, m: nat, p: nat, f: nat, k: Key, a: int,
                                         s: nat)
    requires Linked(nodes, rank) && m < |nodes| && f < |nodes| && LinksTo(nodes, p, m) && nodes[f].key == NilKey
    requires a != m && a != f && Reaches(nodes, a, m, s)
    ensures Leads(Relocate(nodes, m, p, f, k), a, f)
    decreases s
  {
    var nodes' := Relocate(nodes, m, p, f, k);
    var c := Succ(nodes, a);
    if c == m {
      assert a == p;
      LeadsSelf(nodes', f);
    } else {
      RelocateFinds(nodes, rank, m, p, f, k, c, s - 1);
    }
    LeadsCons(nodes', a, f);
  }

  function RelocateRank(rank: seq<real>, m: nat, f: nat): seq<real>
    requires m < |rank| && f < |rank|
  {
    rank[f := rank[m]][m := 0.0]
  }

  lemma RelocateRising(nodes: seq<Node>, rank: seq<real>, m: nat, p: nat, f: nat, k: Key)
    requires m < |nodes| && f < |nodes| && LinksTo(nodes, p, m) && nodes[f].key == NilKey && nodes[m].key != NilKey
    requires Rising(nodes, rank) && Apart(nodes) && k != NilKey
    ensures Rising(Relocate(nodes, m, p, f, k), RelocateRank(rank, m, f))
  {
    var nodes', rank' := Relocate(nodes, m, p, f, k), RelocateRank(rank, m, f);
    forall i | 0 <= i < |nodes| && nodes'[i].next != 0
      ensures 0 <= Succ(nodes', i) < |nodes'| && rank'[i] < rank'[Succ(nodes', i)]
      ensures nodes'[Succ(nodes', i)].key != NilKey && nodes'[i].key != NilKey
    {
      if i == p {
        assert Succ(nodes', p) == f && p != m && p != f;
      } else if i == f {
        assert Succ(nodes', f) == Succ(nodes, m) && Succ(nodes, m) != m && Succ(nodes, m) != f;
      } else {
        assert i != m && Succ(nodes', i) == Succ(nodes, i) && Succ(nodes, i) != f && Succ(nodes, i) != m;
      }
    }
  }

  lemma RelocateApart(nodes: seq<Node>, m: nat, p: nat, f: nat, k: Key)
    requires m < |nodes| && f < |nodes| && LinksTo(nodes, p, m) && m != f && p != m && p != f && nodes[f].next == 0
    requires Apart(nodes) && forall i :: 0 <= i < |nodes| && nodes[i].next != 0 ==> Succ(nodes, i) != f
    ensures Apart(Relocate(nodes, m, p, f, k))
  {
    var nodes' := Relocate(nodes, m, p, f, k);
    forall i, j | 0 <= i < |nodes| && 0 <= j < |nodes| && i != j && nodes'[i].next != 0 && nodes'[j].next != 0
      ensures Succ(nodes', i) != Succ(nodes', j)
    {
      var i0 := if i == f then m else i;
      var j0 := if j == f then m else j;
      assert i != p ==> Succ(nodes', i) == Succ(nodes, i0);
      assert j != p ==> Succ(nodes', j) == Succ(nodes, j0);
    }
  }

  lemma RelocateLinked(nodes: seq<Node>, rank: seq<real>, m: nat, p: nat, f: nat, k: Key)
    requires m < |nodes| && f < |nodes| && LinksTo(nodes, p, m) && nodes[f].key == NilKey && nodes[m].key != NilKey
    requires Linked(nodes, rank) && k != NilKey
    ensures Linked(Relocate(nodes, m, p, f, k), RelocateRank(rank, m, f))
  {
    RelocateRising(nodes, rank, m, p, f, k);
    RelocateApart(nodes, m, p, f, k);
  }

  lemma RelocateScatter(mp: MainPosition, nodes: seq<Node>, rank: seq<real>, m: nat, p: nat, f: nat, k: Key)
    requires Scatter(mp, nodes, rank) && Stored(k) && Find(nodes, k) == |nodes|
    requires m == Main(mp, nodes, k) && nodes[m].key != NilKey && Main(mp, nodes, nodes[m].key) != m
    requires f < |nodes| && nodes[f].key == NilKey && LinksTo(nodes, p, m)
    ensures Scatter(mp, Relocate(nodes, m, p, f, k), RelocateRank(rank, m, f))
  {
    hide HashLook, Linked, FindFrom;
    var nodes' := Relocate(nodes, m, p, f, k);
    RelocateLinked(nodes, rank, m, p, f, k);
    assert Keyed(nodes') by { hide Brent, Reachable; }
    assert Brent(mp, nodes') by { hide Reachable, Linked; }
    hide Keyed, Reaches;
    forall i | 0 <= i < |nodes| && nodes'[i].key != NilKey
      ensures Leads(nodes', Main(mp, nodes', nodes'[i].key), i)
    {
      if i == m {
        LeadsSelf(nodes', m);
      } else if i == f {
        var a := Main(mp, nodes, nodes[m].key);
        var s: nat :| Reaches(nodes, a, m, s);
        RelocateFinds(nodes, rank, m, p, f, k, a, s);
      } else {
        var a := Main(mp, nodes, nodes[i].key);
        var s: nat :| Reaches(nodes, a, i, s);
        RelocateReaches(nodes, rank, m, p, f, k, a, i, s);
      }
    }
  }

  lemma RelocateInserts(nodes: seq<Node>, rank: seq<real>, m: nat, p: nat, f: nat, k: Key)
    requires Linked(nodes, rank) && Keyed(nodes) && Stored(k) && Find(nodes, k) == |nodes|
    requires m < |nodes| && f < |nodes| && nodes[f].key == NilKey && nodes[m].key != NilKey && LinksTo(nodes, p, m)
    ensures Inserted(nodes, Relocate(nodes, m, p, f, k), k, m)
  {
    var nodes' := Relocate(nodes, m, p, f, k);
    assert Keyed(nodes');
    forall k' ensures HashLook(nodes', k') == HashLook(nodes, k') {
      forall i | 0 <= i < |nodes| && nodes[i].val != Nil
        ensures exists j :: 0 <= j < |nodes| && nodes'[j].key == nodes[i].key && nodes'[j].val == nodes[i].val
      {
        var j := if i == m then f else i;
        assert nodes'[j].key == nodes[i].key;
      }
      forall i | 0 <= i < |nodes| && nodes'[i].val != Nil
        ensures exists j :: 0 <= j < |nodes| && nodes[j].key == nodes'[i].key && nodes[j].val == nodes'[i].val
      {
        var j := if i == f then m else i;
        assert nodes[j].key == nodes'[i].key;
      }
      SameLook(nodes, nodes', k');
    }
    forall i | 0 <= i < |nodes| && nodes'[i].key != NilKey && nodes'[i].key != k
      ensures Find(nodes, nodes'[i].key) < |nodes|
    {
      FindIs(nodes, nodes'[i].key, if i == f then m else i);
    }
  }
}
