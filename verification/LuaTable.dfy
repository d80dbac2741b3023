/** Lua tables: an array part and a hash part that together behave like one finite map. */
module LuaTable {
  import opened Shared
  import opened TableCore
  import opened TableSizes

  /** Where a value is kept; Absent stands for the shared nil object. */
  datatype Loc = Absent | InArray(i: nat) | InNode(i: nat)

  datatype Error = NoError | NilIndex | NaNIndex | Overflow

  /** What a program does to a table: an assignment, or room made for a list of that length. */
  datatype Op = Assigned(key: Key, val: Value) | Reserved(last: nat)

  /** Floats with an integral value are looked up and stored as integers. */
  function Normal(k: Key): Key {
    if k.FloatKey? && k.f.Integral? then IntKey(k.f.i) else k
  }

  /** Two keys for one element: the same key, or an integer and the float of that value. */
  predicate OneKey(a: Key, b: Key) {
    a == b || (a.IntKey? && b == FloatKey(Integral(a.i))) || (b.IntKey? && a == FloatKey(Integral(b.i)))
  }

  lemma NormalMeans(a: Key, b: Key)
    ensures Normal(a) == Normal(b) <==> OneKey(a, b)
    ensures OneKey(Normal(a), b) <==> OneKey(a, b)
  {
  }

  predicate InRange(k: Key, n: int) { k.IntKey? && 1 <= k.i <= n }

  /** The value that a table gives to a key in normal form. */
  function Look(arr: seq<Value>, nodes: seq<Node>, k: Key): Value {
    if InRange(k, |arr|) then arr[k.i - 1] else HashLook(nodes, k)
  }

  ghost predicate SameLooks(arr: seq<Value>, nodes: seq<Node>, arr': seq<Value>, nodes': seq<Node>) {
    forall k :: Look(arr', nodes', k) == Look(arr, nodes, k)
  }

  /** No node holds a key that belongs into the array part. */
  ghost predicate NoneInRange(nodes: seq<Node>, n: int) {
    forall i :: 0 <= i < |nodes| ==> !InRange(nodes[i].key, n)
  }

  /** Nodes from lastfree on are in use. */
  ghost predicate UsedFrom(nodes: seq<Node>, lastfree: int) {
    0 <= lastfree <= |nodes| && forall i :: lastfree <= i < |nodes| ==> nodes[i].key != NilKey
  }

  ghost predicate WellFormed(mp: MainPosition, arr: seq<Value>, nodes: seq<Node>, rank: seq<real>, lastfree: int) {
    |arr| <= MAXASIZE && |nodes| <= MAXHSIZE && Scatter(mp, nodes, rank) && NoneInRange(nodes, |arr|) &&
    if lastfree == -1 then nodes == [FREE] else UsedFrom(nodes, lastfree)
  }

  /** The location of a key in normal form that is present. */
  ghost predicate CellOf(arr: seq<Value>, nodes: seq<Node>, k: Key, loc: Loc) {
    match loc
    case Absent => false
    case InArray(i) => InRange(k, |arr|) && i == k.i - 1
    case InNode(i) => !InRange(k, |arr|) && i < |nodes| && nodes[i].key == k && k != NilKey
  }

  ghost predicate Missing(arr: seq<Value>, nodes: seq<Node>, k: Key) {
    !InRange(k, |arr|) && (k != NilKey ==> Find(nodes, k) == |nodes|)
  }

  // ---- termination of walks along a chain ----

  ghost function Above(rank: seq<real>, n: int): nat
    requires 0 <= n < |rank|
  {
    |set j | 0 <= j < |rank| && rank[j] > rank[n]|
  }

  lemma AboveShrinks(rank: seq<real>, a: int, b: int)
    requires 0 <= a < |rank| && 0 <= b < |rank| && rank[a] < rank[b]
    ensures Above(rank, b) < Above(rank, a)
  {
    var above := set j | 0 <= j < |rank| && rank[j] > rank[a];
    var less := set j | 0 <= j < |rank| && rank[j] > rank[b];
    assert b in above && b !in less;
    assert less <= above - {b};
    SubsetCard(less, above - {b});
  }

  lemma WalkDescends(mp: MainPosition, nodes: seq<Node>, rank: seq<real>, n: int)
    requires Scatter(mp, nodes, rank) && 0 <= n < |nodes| && nodes[n].next != 0
    ensures |rank| == |nodes| && 0 <= Succ(nodes, n) < |nodes| && Above(rank, Succ(nodes, n)) < Above(rank, n)
  {
    AboveShrinks(rank, n, Succ(nodes, n));
  }

  lemma WalkStarts(mp: MainPosition, nodes: seq<Node>, rank: seq<real>, k: Key)
    requires Scatter(mp, nodes, rank) && k != NilKey
    ensures |rank| == |nodes| > 0
    ensures Find(nodes, k) < |nodes| ==> Leads(nodes, Main(mp, nodes, k), Find(nodes, k))
  {
  }

  // ---- room in the hash part ----

  function KeysOf(nodes: seq<Node>): set<Key> { set i | 0 <= i < |nodes| && nodes[i].key != NilKey :: nodes[i].key }

  lemma {:induction false} AllDistinct(nodes: seq<Node>)
    requires Keyed(nodes) && forall i :: 0 <= i < |nodes| ==> nodes[i].key != NilKey
    ensures |KeysOf(nodes)| == |nodes|
  {
    if |nodes| > 0 {
      var front := nodes[..|nodes| - 1];
      AllDistinct(front);
      var last := nodes[|nodes| - 1].key;
      assert KeysOf(nodes) == KeysOf(front) + {last};
      assert last !in KeysOf(front);
    }
  }

  /** Fewer keys than nodes leave a node free. */
  lemma FreeNodeExists(nodes: seq<Node>, keys: set<Key>)
    requires Keyed(nodes) && KeysOf(nodes) <= keys && |keys| < |nodes|
    ensures exists i :: 0 <= i < |nodes| && nodes[i].key == NilKey
  {
    if forall i :: 0 <= i < |nodes| ==> nodes[i].key != NilKey {
      AllDistinct(nodes);
      SubsetCard(KeysOf(nodes), keys);
    }
  }

  ghost predicate HasRoom(nodes: seq<Node>, lastfree: int) {
    lastfree != -1 && exists i :: 0 <= i < |nodes| && nodes[i].key == NilKey
  }

  /** Whether the insertion of a key has to enlarge the table: its main position is taken and no other node is free. */
  ghost predicate MustGrow(mp: MainPosition, nodes: seq<Node>, lastfree: int, k: Key)
    requires |nodes| > 0
  {
    (nodes[mp(k, |nodes|)].val != Nil || lastfree == -1) && !HasRoom(nodes, lastfree)
  }

  /** The best array part leaves more keys for the hash part than it can have nodes. */
  ghost predicate TooBig(arr: seq<Value>, nodes: seq<Node>, ek: Key) {
    exists n :: Optimal(IntKeys(arr, nodes, ek), n) && |HashNeed(arr, nodes, ek, n)| > MAXHSIZE
  }

  /** When a table does not take a new key: only if it has to grow and would be too big. */
  ghost predicate Refuses(mp: MainPosition, arr: seq<Value>, nodes: seq<Node>, lastfree: int, k: Key)
    requires |nodes| > 0
  {
    Stored(k) && Missing(arr, nodes, k) && MustGrow(mp, nodes, lastfree, k) && TooBig(arr, nodes, k)
  }

  lemma TooBigExactly(arr: seq<Value>, nodes: seq<Node>, ek: Key, n: int)
    requires Optimal(IntKeys(arr, nodes, ek), n)
    ensures TooBig(arr, nodes, ek) <==> |HashNeed(arr, nodes, ek, n)| > MAXHSIZE
  {
    hide Optimal, IntKeys, HashNeed;
    if TooBig(arr, nodes, ek) {
      var n' :| Optimal(IntKeys(arr, nodes, ek), n') && |HashNeed(arr, nodes, ek, n')| > MAXHSIZE;
      OptimalIsUnique(IntKeys(arr, nodes, ek), n, n');
    }
  }

  lemma RefusesStored(mp: MainPosition, arr: seq<Value>, nodes: seq<Node>, lastfree: int, k: Key)
    requires |nodes| > 0
    ensures Refuses(mp, arr, nodes, lastfree, k) ==> Stored(k)
  {
  }

  lemma RefusesNow(mp: MainPosition, arr: seq<Value>, nodes: seq<Node>, lastfree: int, k: Key)
    requires |nodes| > 0 && Stored(k) && Missing(arr, nodes, k) && !HasRoom(nodes, lastfree)
    requires nodes[mp(k, |nodes|)].val != Nil || lastfree == -1
    ensures Refuses(mp, arr, nodes, lastfree, k) <==> TooBig(arr, nodes, k)
  {
    hide TooBig, Missing;
  }

  lemma RefusesNot(mp: MainPosition, arr: seq<Value>, nodes: seq<Node>, lastfree: int, k: Key, f: int)
    requires |nodes| > 0
    requires if f == -1 then nodes[mp(k, |nodes|)].val == Nil && lastfree != -1
             else lastfree != -1 && 0 <= f < |nodes| && nodes[f].key == NilKey
    ensures !Refuses(mp, arr, nodes, lastfree, k)
  {
    hide TooBig, Missing;
  }

  /** Looking for a free node in vain does not change that. */
  lemma StillRefuses(mp: MainPosition, arr: seq<Value>, nodes: seq<Node>, lastfree: int, lastfree': int, k: Key)
    requires |nodes| > 0 && (lastfree' == lastfree == -1 || (lastfree' == 0 && UsedFrom(nodes, 0) && lastfree != -1))
    ensures Refuses(mp, arr, nodes, lastfree', k) == Refuses(mp, arr, nodes, lastfree, k)
  {
    hide TooBig, Missing;
  }

  /** Two states of one table between which no key was inserted: only values may differ. */
  ghost predicate SameShape(arr: seq<Value>, nodes: seq<Node>, arr': seq<Value>, nodes': seq<Node>) {
    |arr'| == |arr| && |nodes'| == |nodes| && forall i :: 0 <= i < |nodes| ==> nodes'[i].key == nodes[i].key
  }

  class Table {
    const mp: MainPosition
    var arr: seq<Value>
    var node: array<Node>
    var lastfree: int
    ghost var rank: seq<real>

    ghost predicate Valid()
      reads this, node
    {
      WellFormed(mp, arr, node[..], rank, lastfree)
    }

    /** What `luaH_get` answers for any key. */
    ghost function Lookup(k: Key): Value
      reads this, node
    {
      Look(arr, node[..], Normal(k))
    }

    /** A float with an integral value looks up what the integer does. */
    lemma FloatsLookUpIntegers(i: int)
      ensures Lookup(FloatKey(Integral(i))) == Lookup(IntKey(i))
    {
    }

    /** `luaH_new`: no array part, and the shared dummy node as hash part. */
    constructor (mp: MainPosition)
      ensures Valid() && fresh(node) && arr == [] && this.mp == mp
      ensures forall k :: Lookup(k) == Nil && Look(arr, node[..], k) == Nil
    {
      this.mp := mp;
      arr := [];
      node := new Node[1](i => FREE);
      lastfree := -1;
      rank := [0.0];
      new;
      assert node[..] == [FREE];
    }

    /** The chain walk of `luaH_getint`, `luaH_getshortstr` and `getgeneric`. */
    method Walk(k: Key) returns (loc: Loc)
      requires Valid() && !InRange(k, |arr|) && k != NilKey && (Stored(k) || k == FloatKey(NaN))
      ensures loc == Absent ==> Missing(arr, node[..], k)
      ensures loc != Absent ==> CellOf(arr, node[..], k, loc)
    {
      hide Scatter, Leads, Above, NoneInRange, UsedFrom;
      var n := mp(k, node.Length);
      ghost var nodes := node[..];
      ghost var at := Find(nodes, k);
      WalkStarts(mp, nodes, rank, k);
      while true
        invariant 0 <= n < node.Length && node[..] == nodes
        invariant at < |nodes| ==> Leads(nodes, n, at)
        decreases Above(rank, n)
      {
        if node[n].key == k {
          return InNode(n);
        }
        if at < |nodes| {
          LeadsStep(nodes, n, at);
        }
        var nx := node[n].next;
        if nx == 0 {
          return Absent;
        }
        WalkDescends(mp, nodes, rank, n);
        n := n + nx;
      }
    }

    /** `luaH_get`. */
    method Get(key: Key) returns (loc: Loc)
      requires Valid()
      ensures loc == Absent ==> Missing(arr, node[..], Normal(key))
      ensures loc != Absent ==> CellOf(arr, node[..], Normal(key), loc)
      ensures At(loc) == Lookup(key)
    {
      hide Scatter, UsedFrom, NoneInRange, Missing, Look, Keyed;
      NilIsMissing(mp, arr, node[..], rank, lastfree);
      if key == NilKey {
        return Absent;
      }
      var k := Normal(key);
      if InRange(k, |arr|) {
        CellHolds(arr, node[..], k, InArray(k.i - 1));
        return InArray(k.i - 1);
      }
      loc := Walk(k);
      if loc == Absent {
        MissingLooksNil(arr, node[..], k);
      } else {
        CellHolds(arr, node[..], k, loc);
      }
    }

    /** Reads through a location. */
    function At(loc: Loc): Value
      requires loc.InArray? ==> loc.i < |arr|
      requires loc.InNode? ==> loc.i < node.Length
      reads this, node
    {
      match loc
      case Absent => Nil
      case InArray(i) => arr[i]
      case InNode(i) => node[i].val
    }

    /** Assigns through a location. */
    method Store(loc: Loc, v: Value, ghost k: Key)
      requires Valid() && CellOf(arr, node[..], k, loc)
      modifies this`arr, node
      ensures Valid() && |arr| == |old(arr)| && CellOf(arr, node[..], k, loc)
      ensures KeysOf(node[..]) == old(KeysOf(node[..]))
      ensures SameShape(old(arr), old(node[..]), arr, node[..])
      ensures forall k' :: Look(arr, node[..], k') == if k' == k then v else old(Look(arr, node[..], k'))
    {
      if loc.InArray? {
        arr := arr[loc.i := v];
      } else {
        ghost var nodes := node[..];
        node[loc.i] := node[loc.i].(val := v);
        StoreKeeps(mp, nodes, rank, loc.i, v);
        assert node[..] == nodes[loc.i := nodes[loc.i].(val := v)];
      }
    }

    // ---- inserting ----

    /** `getfreepos`: -1 stands for NULL. */
    method GetFreePos() returns (f: int)
      requires Valid()
      modifies this`lastfree
      ensures f == -1 ==> if old(lastfree) == -1 then lastfree == -1 else lastfree == 0 && UsedFrom(node[..], 0)
      ensures f != -1 ==> old(lastfree) != -1 && 0 <= f == lastfree < node.Length && node[f].key == NilKey
      ensures f != -1 ==> forall i :: f < i < node.Length ==> node[i].key != NilKey
    {
      hide Scatter, NoneInRange;
      f := -1;
      if lastfree != -1 {
        while lastfree > 0
          invariant UsedFrom(node[..], lastfree)
          decreases lastfree
        {
          lastfree := lastfree - 1;
          if node[lastfree].key == NilKey {
            return lastfree;
          }
        }
      }
    }

    /** The predecessor of m in its chain, searched from the main position of the key that m holds. */
    method FindPrevious(m: nat) returns (p: nat)
      requires WellFormed(mp, arr, node[..], rank, -1) || Scatter(mp, node[..], rank)
      requires m < node.Length && node[m].key != NilKey && mp(node[m].key, node.Length) != m
      ensures LinksTo(node[..], p, m)
    {
      hide Scatter, Leads, Above, NoneInRange, UsedFrom;
      ghost var nodes := node[..];
      p := mp(node[m].key, node.Length);
      KeyLeads(mp, nodes, rank, m);
      LeadsStep(nodes, p, m);
      WalkDescends(mp, nodes, rank, p);
      while p + node[p].next != m
        invariant 0 <= p < node.Length && node[..] == nodes && p != m
        invariant Leads(nodes, p, m) && node[p].next != 0
        decreases Above(rank, p)
      {
        LeadsStep(nodes, p, m);
        WalkDescends(mp, nodes, rank, p);
        p := p + node[p].next;
        LeadsStep(nodes, p, m);
      }
    }

    /** Moves the strayed key of node m to the free node f and gives m to the key k. */
    method MoveAway(m: nat, p: nat, f: nat, k: Key)
      requires m < node.Length && p < node.Length && f < node.Length && p != m && p != f && m != f
      modifies node
      ensures node[..] == Relocate(old(node[..]), m, p, f, k)
    {
      node[p] := node[p].(next := f - p);
      node[f] := node[m];
      if node[m].next != 0 {
        node[f] := node[f].(next := node[f].next + (m - f));
        node[m] := node[m].(next := 0);
      }
      node[m] := node[m].(val := Nil);
      node[m] := node[m].(key := k);
    }

    /** Chains the free node f in after m and gives it to the key k. */
    method ChainNew(m: nat, f: nat, k: Key)
      requires m < node.Length && f < node.Length && m != f && node[f].val == Nil
      modifies node
      ensures node[..] == ChainIn(old(node[..]), m, f, k)
    {
      if node[m].next != 0 {
        node[f] := node[f].(next := (m + node[m].next) - f);
      }
      node[m] := node[m].(next := f - m);
      node[f] := node[f].(key := k);
    }

    /** The node updates of `luaH_newkey` for a key that needs no rehash; f is the free position,
        or -1 if the main position was free. */
    method Place(k: Key, f: int) returns (at: nat)
      requires Scatter(mp, node[..], rank) && Stored(k) && Find(node[..], k) == node.Length
      requires f == -1 ==> node[mp(k, node.Length)].val == Nil
      requires f != -1 ==> node[mp(k, node.Length)].val != Nil && 0 <= f < node.Length && node[f].key == NilKey
      modifies this`rank, node
      ensures Scatter(mp, node[..], rank)
      ensures Inserted(old(node[..]), node[..], k, at)
      ensures f != -1 ==> node[f].key != NilKey
    {
      hide Scatter, Reachable, Inserted, SameLooks, HashLook, Linked, Keyed, Relocate, ChainIn, RelocateRank,
        ChainInRank;
      ghost var nodes := node[..];
      ScatterBasics(mp, nodes, rank);
      var m := mp(k, node.Length);
      at := m;
      if f != -1 {
        var other := mp(node[m].key, node.Length);
        if other != m {
          var p := FindPrevious(m);
          PredecessorDiffers(nodes, rank, p, m);
          MoveAway(m, p, f, k);
          RelocateScatter(mp, nodes, rank, m, p, f, k);
          RelocateInserts(nodes, rank, m, p, f, k);
          rank := RelocateRank(rank, m, f);
          NewNodeUsed(nodes, k, m, p, f);
        } else {
          ChainNew(m, f, k);
          at := f;
          ChainInScatter(mp, nodes, rank, m, f, k);
          ChainInInserts(nodes, rank, m, f, k);
          rank := ChainInRank(nodes, rank, m, f);
          NewNodeUsed(nodes, k, m, 0, f);
        }
      } else {
        node[m] := node[m].(key := k);
        assert node[..] == TakeOver(nodes, m, k);
        TakeOverScatter(mp, nodes, rank, m, k);
        TakeOverInserts(mp, nodes, rank, m, k);
      }
    }

    /** A location of the key is left as it is, or one is made for it: `luaH_set`. With room set,
        the caller knows that the key has a place already or that a node is free. */
    method SetCell(key: Key, ghost room: bool) returns (loc: Loc, err: Error)
      requires Valid()
      requires room ==> Stored(key) && key == Normal(key)
      requires room ==> !Missing(arr, node[..], key) || HasRoom(node[..], lastfree)
      modifies this, node
      ensures Valid()
      ensures node == old(node) || fresh(node)
      ensures SameLooks(old(arr), old(node[..]), arr, node[..])
      ensures err == NoError ==> CellOf(arr, node[..], Normal(key), loc)
      ensures err == NilIndex <==> key == NilKey
      ensures err == NaNIndex <==> key == FloatKey(NaN)
      ensures err == Overflow <==> old(Refuses(mp, arr, node[..], lastfree, Normal(key)))
      ensures err == Overflow ==> Refuses(mp, arr, node[..], lastfree, Normal(key))
      ensures room ==> err == NoError && node == old(node) && arr == old(arr)
      ensures room ==> KeysOf(node[..]) <= old(KeysOf(node[..])) + {key}
      ensures !old(Missing(arr, node[..], Normal(key))) ==> err == NoError && node[..] == old(node[..])
      ensures !old(Missing(arr, node[..], Normal(key))) ==> arr == old(arr)
      ensures !old(Missing(arr, node[..], Normal(key))) ==> lastfree == old(lastfree)
      ensures room && old(lastfree) != -1 ==> lastfree != -1
      decreases !room, 1
    {
      loc := Get(key);
      err := NoError;
      if loc == Absent {
        loc, err := NewKey(key, room);
      }
    }

    /** `luaH_newkey`. */
    method NewKey(key0: Key, ghost room: bool) returns (loc: Loc, err: Error)
      requires Valid() && Missing(arr, node[..], Normal(key0))
      requires room ==> Stored(key0) && key0 == Normal(key0) && HasRoom(node[..], lastfree)
      modifies this, node
      ensures Valid()
      ensures node == old(node) || fresh(node)
      ensures SameLooks(old(arr), old(node[..]), arr, node[..])
      ensures err == NoError ==> CellOf(arr, node[..], Normal(key0), loc)
      ensures err == NilIndex <==> key0 == NilKey
      ensures err == NaNIndex <==> key0 == FloatKey(NaN)
      ensures err == Overflow <==> old(Refuses(mp, arr, node[..], lastfree, Normal(key0)))
      ensures err == Overflow ==> Refuses(mp, arr, node[..], lastfree, Normal(key0))
      ensures room ==> err == NoError && node == old(node) && arr == old(arr)
      ensures room ==> KeysOf(node[..]) <= old(KeysOf(node[..])) + {key0}
      ensures room ==> lastfree != -1
      decreases !room, 0
    {
      hide Scatter, Look, Missing, HasRoom, UsedFrom, TooBig, Refuses, MustGrow;
      LastFreeInside(mp, arr, node[..], rank, lastfree);
      ScatterBasics(mp, node[..], rank);
      RefusesStored(mp, arr, node[..], lastfree, Normal(key0));
      var key := key0;
      loc := Absent;
      if key == NilKey {
        return Absent, NilIndex;
      } else if key.FloatKey? {
        if key.f.Integral? {
          key := IntKey(key.f.i);
        } else if key.f.NaN? {
          return Absent, NaNIndex;
        }
      }
      MissingMeans(arr, node[..], key);
      var f := -1;
      if node[mp(key, node.Length)].val != Nil || lastfree == -1 {
        f := GetFreePos();
        if f == -1 {
          NoRoomLeft(node[..], lastfree, old(lastfree));
          StillRefuses(mp, arr, node[..], old(lastfree), lastfree, key);
          RefusesNow(mp, arr, node[..], old(lastfree), key);
          err := Rehash(key);
          if err == NoError {
            loc, err := SetCell(key, true);
          }
          return;
        }
      }
      ghost var nodes := node[..];
      RefusesNot(mp, arr, nodes, old(lastfree), key, f);
      var at := Place(key, f);
      InsertedKeeps(mp, arr, nodes, node[..], rank, key, at);
      UsedAfter(nodes, node[..], lastfree, f, key, at);
      return InNode(at), NoError;
    }

    // ---- rehashing ----

    /** `setnodevector`. */
    method SetNodeVector(size: nat)
      requires size <= MAXHSIZE && |arr| <= MAXASIZE
      modifies this`node, this`lastfree, this`rank
      ensures Valid() && fresh(node) && node.Length >= size && KeysOf(node[..]) == {}
      ensures size > 0 ==> lastfree != -1
      ensures size == 0 ==> lastfree == -1
      ensures forall k :: HashLook(node[..], k) == Nil
    {
      hide Scatter, HashLook, Pow2, KeysOf;
      if size == 0 {
        node := new Node[1](i => FREE);
        lastfree := -1;
        assert node[..] == [FREE];
      } else {
        Pow2At31();
        var lsize := CeilLog2(size);
        CeilLog2Fits(size);
        node := new Node[Pow2(lsize)](i => FREE);
        lastfree := node.Length;
      }
      rank := seq(node.Length, i => 0.0);
      EmptyVector(mp, node[..], rank);
    }

    /** `luaH_resize`. The ghost argument lists the keys that have to go to the hash part; the caller
        promises that it is large enough for them. */
    method Resize(nasize: nat, nhsize: nat, ghost keep: set<Key>) returns (err: Error)
      requires Valid() && nasize <= MAXASIZE && |keep| <= nhsize
      requires forall k :: Look(arr, node[..], k) != Nil && !InRange(k, nasize) ==> k in keep
      modifies this, node
      ensures Valid()
      ensures node == old(node) || fresh(node)
      ensures SameLooks(old(arr), old(node[..]), arr, node[..])
      ensures err == if nhsize > MAXHSIZE then Overflow else NoError
      ensures err == NoError ==> |arr| == nasize && KeysOf(node[..]) <= keep && node.Length >= nhsize
      ensures err == NoError && nhsize > 0 ==> lastfree != -1
      ensures err != NoError ==> arr == old(arr) && node == old(node) && node[..] == old(node[..])
      ensures err != NoError ==> lastfree == old(lastfree)
      decreases false, 4
    {
      hide Scatter, NoneInRange, UsedFrom, Moved, Transferred, SameLooks, HashLook, Pow2, Find;
      ScatterBasics(mp, node[..], rank);
      ghost var oldA, oldN := arr, node[..];
      var oldasize := |arr|;
      var nold := node;
      var oldhsize := if lastfree == -1 then 0 else node.Length;
      if nasize > oldasize {
        arr := arr + seq(nasize - oldasize, i => Nil);
      }
      if nhsize > MAXHSIZE {
        arr := arr[..oldasize];
        assert arr == oldA;
        NothingChanged(oldA, oldN);
        return Overflow;
      }
      err := NoError;
      var vanishing := arr;
      if nasize < oldasize {
        arr := arr[..nasize];
      }
      SetNodeVector(nhsize);
      NothingMoved(oldA, oldN, arr, node[..], if nasize < oldasize then nasize else oldasize);
      if nasize < oldasize {
        MoveSlice(vanishing, nasize, nhsize, keep, oldN);
      }
      if oldhsize == 0 {
        DummyHoldsNothing(mp, oldA, oldN, arr, node[..], old(rank), old(lastfree), oldasize);
      } else {
        MoveNodes(nold, nhsize, keep, oldA, old(rank), old(lastfree));
      }
      AllMoved(oldA, oldN, arr, node[..], oldasize);
    }

    /** `luaH_resize`: reinserts the elements from the vanishing slice of the array part. */
    method MoveSlice(vanishing: seq<Value>, nasize: nat, ghost nhsize: nat, ghost keep: set<Key>, ghost oldN: seq<Node>)
      requires Valid() && |arr| == nasize < |vanishing| <= MAXASIZE && node.Length >= nhsize >= |keep|
      requires (nhsize > 0 ==> lastfree != -1) && KeysOf(node[..]) <= keep
      requires Transferred(vanishing, oldN, arr, node[..], nasize, |oldN|)
      requires forall k :: Look(vanishing, oldN, k) != Nil && !InRange(k, nasize) ==> k in keep
      modifies this, node
      ensures Valid() && node == old(node) && |arr| == nasize
      ensures (nhsize > 0 ==> lastfree != -1) && KeysOf(node[..]) <= keep
      ensures Transferred(vanishing, oldN, arr, node[..], |vanishing|, |oldN|)
      decreases false, 3
    {
      hide WellFormed, Moved, Transferred, HashLook, KeysOf;
      var i := nasize;
      while i < |vanishing|
        invariant nasize <= i <= |vanishing|
        invariant Valid() && node == old(node) && |arr| == nasize
        invariant (nhsize > 0 ==> lastfree != -1) && KeysOf(node[..]) <= keep
        invariant Transferred(vanishing, oldN, arr, node[..], i, |oldN|)
      {
        ghost var arr0, nodes0 := arr, node[..];
        if vanishing[i] != Nil {
          assert Look(vanishing, oldN, IntKey(i + 1)) == vanishing[i];
          MoveValue(IntKey(i + 1), vanishing[i], nhsize, keep);
        }
        MovedArraySlot(vanishing, oldN, arr0, nodes0, arr, node[..], i);
        i := i + 1;
      }
    }

    /** `luaH_resize`: reinserts the elements from the old hash part. */
    method MoveNodes(nold: array<Node>, ghost nhsize: nat, ghost keep: set<Key>, ghost oldA: seq<Value>,
                     ghost rank0: seq<real>, ghost lastfree0: int)
      requires Valid() && node.Length >= nhsize >= |keep| && nold != node
      requires (nhsize > 0 ==> lastfree != -1) && KeysOf(node[..]) <= keep
      requires WellFormed(mp, oldA, nold[..], rank0, lastfree0)
      requires Transferred(oldA, nold[..], arr, node[..], |oldA|, nold.Length)
      requires forall k :: Look(oldA, nold[..], k) != Nil && !InRange(k, |arr|) ==> k in keep
      modifies this, node
      ensures Valid() && node == old(node) && |arr| == |old(arr)|
      ensures (nhsize > 0 ==> lastfree != -1) && KeysOf(node[..]) <= keep
      ensures Transferred(oldA, old(nold[..]), arr, node[..], |oldA|, 0)
      decreases false, 3
    {
      hide WellFormed, Moved, Transferred, HashLook, KeysOf;
      ghost var oldN := nold[..];
      var j := nold.Length;
      while j > 0
        invariant 0 <= j <= nold.Length && nold[..] == oldN
        invariant Valid() && node == old(node) && |arr| == |old(arr)|
        invariant (nhsize > 0 ==> lastfree != -1) && KeysOf(node[..]) <= keep
        invariant Transferred(oldA, oldN, arr, node[..], |oldA|, j)
      {
        j := j - 1;
        ghost var arr0, nodes0 := arr, node[..];
        OldNode(mp, oldA, oldN, rank0, lastfree0, j);
        if nold[j].val != Nil {
          MoveValue(nold[j].key, nold[j].val, nhsize, keep);
        }
        MovedNode(mp, oldA, oldN, rank0, lastfree0, arr0, nodes0, arr, node[..], j);
      }
    }

    /** One reinsertion of `luaH_resize`: there is always room for it. */
    method MoveValue(k: Key, v: Value, ghost nhsize: nat, ghost keep: set<Key>)
      requires Valid() && node.Length >= nhsize >= |keep| && (nhsize > 0 ==> lastfree != -1)
      requires Stored(k) && Normal(k) == k && (InRange(k, |arr|) || k in keep) && KeysOf(node[..]) <= keep
      modifies this, node
      ensures Valid() && node == old(node) && |arr| == |old(arr)| && KeysOf(node[..]) <= keep
      ensures nhsize > 0 ==> lastfree != -1
      ensures forall k' :: Look(arr, node[..], k') == if k' == k then v else old(Look(arr, node[..], k'))
      decreases false, 2
    {
      hide Scatter, NoneInRange, UsedFrom;
      KeptKeysFit(mp, arr, node[..], rank, lastfree, k, keep);
      var loc, err := SetCell(k, true);
      Store(loc, v, k);
    }

    /** The counting half of `rehash`: the new array size, and the number of the other keys. */
    method NewSizes(ek: Key) returns (asize: int, hsize: int)
      requires Valid() && Stored(ek) && Missing(arr, node[..], ek)
      ensures Optimal(IntKeys(arr, node[..], ek), asize)
      ensures hsize == |HashNeed(arr, node[..], ek, asize)|
    {
      hide Scatter, UsedFrom, Counts, Optimal, Candidates, LiveFrom, IntsOf, ArrayInts, UpTo, WellFormed;
      ghost var s := IntKeys(arr, node[..], ek);
      ArrayFits(mp, arr, node[..], rank, lastfree);
      var nums, na := CountArray(arr);
      var totaluse := na;
      var hashuse, ause;
      nums, hashuse, ause := CountHash(nums);
      na := na + ause;
      totaluse := totaluse + hashuse;
      AllCounted(mp, arr, node[..], rank, lastfree, ek);
      IntsCounted(mp, arr, node[..], rank, lastfree, ek);
      if ek.IntKey? && 1 <= ek.i <= MAXASIZE {
        CountOne(nums, ArrayInts(arr) + IntsOf(LiveFrom(node[..], 0)), ek.i);
        nums := nums[CeilLog2(ek.i) := nums[CeilLog2(ek.i)] + 1];
        na := na + 1;
      }
      totaluse := totaluse + 1;
      asize, na := ComputeSizes(nums, na, s);
      OptimalFits(s, asize);
      HashNeedSize(arr, node[..], ek, asize);
      hsize := totaluse - na;
    }

    /** `rehash`: counts all keys and the extra one, chooses the sizes, and moves everything over.
        Afterwards the extra key has a place, or there is a free node for it. */
    method Rehash(ek: Key) returns (err: Error)
      requires Valid() && Stored(ek) && Normal(ek) == ek && Missing(arr, node[..], ek)
      modifies this, node
      ensures Valid()
      ensures node == old(node) || fresh(node)
      ensures SameLooks(old(arr), old(node[..]), arr, node[..])
      ensures err == if TooBig(old(arr), old(node[..]), ek) then Overflow else NoError
      ensures err != NoError ==> arr == old(arr) && node == old(node) && node[..] == old(node[..])
      ensures err != NoError ==> lastfree == old(lastfree)
      ensures err == NoError ==> !Missing(arr, node[..], ek) || HasRoom(node[..], lastfree)
      ensures err == NoError ==> Optimal(IntKeys(old(arr), old(node[..]), ek), |arr|)
      decreases false, 5
    {
      hide Scatter, UsedFrom, NoneInRange, Optimal, SameLooks, Look, IntKeys, AllKeys, TooBig;
      var asize, hsize := NewSizes(ek);
      OptimalFits(IntKeys(arr, node[..], ek), asize);
      TooBigExactly(arr, node[..], ek, asize);
      ghost var keep := HashNeed(arr, node[..], ek, asize) - {ek};
      LiveAreKept(mp, arr, node[..], rank, lastfree, ek, asize);
      NeedsOne(arr, node[..], ek, asize);
      err := Resize(asize, hsize, keep);
      if err == NoError && !InRange(ek, asize) {
        ScatterBasics(mp, node[..], rank);
        FreeNodeExists(node[..], keep);
      }
    }

    /** `numusehash`. */
    method CountHash(nums0: seq<int>) returns (nums: seq<int>, totaluse: int, ause: int)
      requires Valid() && |nums0| == MAXABITS + 1 && Counts(nums0, ArrayInts(arr))
      ensures |nums| == MAXABITS + 1
      ensures Counts(nums, ArrayInts(arr) + IntsOf(LiveFrom(node[..], 0)))
      ensures totaluse == |LiveFrom(node[..], 0)| && ause == |IntsOf(LiveFrom(node[..], 0))|
    {
      hide WellFormed, Counts, LiveFrom, IntsOf, ArrayInts;
      ghost var nodes := node[..];
      nums, totaluse, ause := nums0, 0, 0;
      var i := node.Length;
      NoneLive(nodes);
      assert ArrayInts(arr) + {} == ArrayInts(arr);
      while i > 0
        invariant 0 <= i <= node.Length && node[..] == nodes && |nums| == MAXABITS + 1
        invariant Counts(nums, ArrayInts(arr) + IntsOf(LiveFrom(nodes, i)))
        invariant totaluse == |LiveFrom(nodes, i)| && ause == |IntsOf(LiveFrom(nodes, i))|
      {
        i := i - 1;
        LiveStep(mp, arr, nodes, rank, lastfree, i);
        if node[i].val != Nil {
          if node[i].key.IntKey? && 1 <= node[i].key.i <= MAXASIZE {
            CountOne(nums, ArrayInts(arr) + IntsOf(LiveFrom(nodes, i + 1)), node[i].key.i);
            nums := nums[CeilLog2(node[i].key.i) := nums[CeilLog2(node[i].key.i)] + 1];
            ause := ause + 1;
          }
          totaluse := totaluse + 1;
        }
      }
    }

    // ---- the table as a map ----

    /** Assigns v to the key, nil included: `luaH_set` and a store through its result. A key that the
        table has already keeps its place, and so does every other one. */
    method Set(key: Key, v: Value) returns (err: Error)
      requires Valid()
      modifies this, node
      ensures Valid() && (node == old(node) || fresh(node))
      ensures err == NilIndex <==> key == NilKey
      ensures err == NaNIndex <==> key == FloatKey(NaN)
      ensures err == Overflow <==> old(Refuses(mp, arr, node[..], lastfree, Normal(key)))
      ensures err == Overflow ==> Refuses(mp, arr, node[..], lastfree, Normal(key))
      ensures forall k :: Lookup(k) == if err == NoError && OneKey(k, key) then v else old(Lookup(k))
      ensures !old(Missing(arr, node[..], Normal(key))) ==>
                err == NoError && SameShape(old(arr), old(node[..]), arr, node[..])
    {
      hide Scatter, UsedFrom, NoneInRange, HashLook, Refuses;
      var loc;
      loc, err := SetCell(key, false);
      if err == NoError {
        Store(loc, v, Normal(key));
      }
      forall k ensures Normal(k) == Normal(key) <==> OneKey(k, key) { NormalMeans(k, key); }
    }

    /** An assignment to a float with the value of an integer is one to that integer, and to no other key. */
    method SetWholeFloat(i: int, v: Value) returns (err: Error)
      requires Valid()
      modifies this, node
      ensures Valid() && (err == NoError || err == Overflow)
      ensures err == NoError ==> Lookup(IntKey(i)) == v && Lookup(FloatKey(Integral(i))) == v
      ensures forall j | j != i :: Lookup(IntKey(j)) == old(Lookup(IntKey(j)))
      ensures forall j | j != i :: Lookup(FloatKey(Integral(j))) == old(Lookup(FloatKey(Integral(j))))
      ensures forall n :: Lookup(FloatKey(Fraction(n))) == old(Lookup(FloatKey(Fraction(n))))
      ensures forall n :: Lookup(OtherKey(n)) == old(Lookup(OtherKey(n)))
    {
      hide WellFormed, Look, Refuses, SameShape, Missing;
      err := Set(FloatKey(Integral(i)), v);
    }

    /** What a table constructor does before it stores a list: `luaH_resizearray`, if the array part is
        too short. The hash part keeps its size, so all keys in it have room. */
    method Reserve(last: nat) returns (err: Error)
      requires Valid() && last <= MAXASIZE
      modifies this, node
      ensures Valid() && (node == old(node) || fresh(node))
      ensures forall k :: Lookup(k) == old(Lookup(k))
      ensures err == NoError && |arr| >= last
    {
      hide WellFormed, Look;
      err := NoError;
      if last > |arr| {
        var nsize := if lastfree == -1 then 0 else node.Length;
        LiveHaveRoom(mp, arr, node[..], rank, lastfree, last);
        err := Resize(last, nsize, LiveFrom(node[..], 0));
      }
    }

    /** `lua_createtable`, and the instruction that makes a table. */
    static method Create(mp: MainPosition, narray: nat, nrec: nat) returns (t: Table, err: Error)
      requires narray <= MAXASIZE
      ensures fresh(t) && fresh(t.node) && t.Valid() && t.mp == mp
      ensures forall k :: t.Lookup(k) == Nil
      ensures err == if nrec > MAXHSIZE then Overflow else NoError
      ensures err == NoError ==> |t.arr| == narray && t.node.Length >= nrec
    {
      hide WellFormed, Pow2;
      t := new Table(mp);
      err := NoError;
      if narray > 0 || nrec > 0 {
        err := t.Resize(narray, nrec, {});
      }
    }

    /** Any run of assignments, with room for lists reserved in between, leaves under each key what was
        assigned to it last. It stops early only at a nil or NaN key or when the table would grow beyond
        what its counters can hold. */
    method Replay(ops: seq<Op>) returns (n: nat, err: Error)
      requires Valid() && forall i :: 0 <= i < |ops| && ops[i].Reserved? ==> ops[i].last <= MAXASIZE
      modifies this, node
      ensures Valid() && n <= |ops| && (err == NoError <==> n == |ops|)
      ensures n < |ops| ==> (err == NilIndex <==> ops[n].Assigned? && ops[n].key == NilKey)
      ensures n < |ops| ==> (err == NaNIndex <==> ops[n].Assigned? && ops[n].key == FloatKey(NaN))
      ensures n < |ops| ==> (err == Overflow <==>
                  ops[n].Assigned? && Refuses(mp, arr, node[..], lastfree, Normal(ops[n].key)))
      ensures forall k :: Lookup(k) == LastWrite(ops[..n], k, old(Lookup(k)))
    {
      hide WellFormed, Look, SameShape, Missing, MustGrow, TooBig;
      n, err := 0, NoError;
      while n < |ops|
        invariant Valid() && n <= |ops| && (node == old(node) || fresh(node)) && err == NoError
        invariant forall k :: Lookup(k) == LastWrite(ops[..n], k, old(Lookup(k)))
      {
        if ops[n].Assigned? {
          err := Set(ops[n].key, ops[n].val);
        } else {
          err := Reserve(ops[n].last);
        }
        if err != NoError {
          return;
        }
        assert ops[..n + 1][..n] == ops[..n];
        n := n + 1;
      }
    }

    // ---- traversal ----

    /** `findindex`: 0 for the start, the position after the key otherwise; fails for an absent key.
        Keys are compared by value, so a float may find an integer key if its own chain meets it. */
    method FindIndex(key: Key) returns (i: nat, ok: bool)
      requires Valid()
      ensures key == NilKey ==> ok && i == 0
      ensures key != NilKey && Normal(key) == key ==> (ok <==> !Missing(arr, node[..], key))
      ensures key != NilKey && ok ==> i == IndexOf(arr, node[..], Normal(key)) && !Missing(arr, node[..], Normal(key))
    {
      hide Scatter, Leads, Above, NoneInRange, UsedFrom;
      if key == NilKey {
        return 0, true;
      }
      if InRange(key, |arr|) {
        return key.i, true;
      }
      ghost var nodes := node[..];
      ghost var at := Find(nodes, key);
      var n := mp(key, node.Length);
      WalkStarts(mp, nodes, rank, key);
      NormalKeys(mp, arr, nodes, rank, lastfree);
      while true
        invariant 0 <= n < node.Length && node[..] == nodes
        invariant at < |nodes| ==> Leads(nodes, n, at)
        decreases Above(rank, n)
      {
        if key != FloatKey(NaN) && node[n].key != NilKey && node[n].key == Normal(key) {
          FoundNode(mp, arr, nodes, rank, lastfree, n);
          return n + 1 + |arr|, true;
        }
        if at < |nodes| {
          LeadsStep(nodes, n, at);
        }
        var nx := node[n].next;
        if nx == 0 {
          return 0, false;
        }
        WalkDescends(mp, nodes, rank, n);
        n := n + nx;
      }
    }

    /** The two loops of `luaH_next`: the first live slot from i on. */
    method FindLive(start: nat) returns (k: Key, v: Value, ghost s: nat)
      ensures s == FirstLive(arr, node[..], start)
      ensures if s < |arr| + node.Length then k == SlotKey(arr, node[..], s) && v == SlotVal(arr, node[..], s)
              else k == NilKey && v == Nil
    {
      s := FirstLive(arr, node[..], start);
      var i := start;
      while i < |arr|
        invariant start <= i && (start < |arr| ==> i <= |arr|) && (start >= |arr| ==> i == start)
        invariant s == FirstLive(arr, node[..], i)
      {
        if arr[i] != Nil {
          return IntKey(i + 1), arr[i], s;
        }
        i := i + 1;
      }
      i := i - |arr|;
      while i < node.Length
        invariant 0 <= i && s == FirstLive(arr, node[..], |arr| + i)
      {
        if node[i].val != Nil {
          return node[i].key, node[i].val, s;
        }
        i := i + 1;
      }
      return NilKey, Nil, s;
    }

    /** `luaH_next`: the first live element after the key; NilKey at the end. */
    method Next(key: Key) returns (k: Key, v: Value, ok: bool)
      requires Valid()
      ensures key == NilKey || (Normal(key) == key && !Missing(arr, node[..], key)) ==> ok
      ensures ok ==> k == NextKey(arr, node[..], Normal(key)) && v == Lookup(k)
      ensures ok && k != NilKey ==> v != Nil && Normal(k) == k && !Missing(arr, node[..], k)
    {
      hide WellFormed, Look, FirstLive, Missing;
      var i;
      i, ok := FindIndex(key);
      if !ok {
        return NilKey, Nil, false;
      }
      NextLooks(mp, arr, node[..], rank, lastfree, i);
      ghost var s;
      k, v, s := FindLive(i);
      LiveSlot(arr, node[..], i);
      if k != NilKey {
        SlotPresent(mp, arr, node[..], rank, lastfree, s);
      }
    }

    /** Assignments to keys that the table has: only values change. */
    method SetPresent(ops: seq<Op>)
      requires Valid() && AllPresent(arr, node[..], ops)
      modifies this, node
      ensures Valid() && (node == old(node) || fresh(node))
      ensures SameShape(old(arr), old(node[..]), arr, node[..])
      ensures After(old(Snapshot(arr, node[..])), Snapshot(arr, node[..]), ops)
    {
      hide WellFormed, Look, SameShape, Missing, AllPresent;
      ghost var s0 := Snapshot(arr, node[..]);
      var n: nat := 0;
      ShapeIsSame(s0);
      while n < |ops|
        invariant Valid() && n <= |ops| && (node == old(node) || fresh(node))
        invariant AllPresent(arr, node[..], ops) && SameShape(s0.arr, s0.nodes, arr, node[..])
        invariant After(s0, Snapshot(arr, node[..]), ops[..n])
      {
        PresentAt(arr, node[..], ops, n);
        ghost var s1 := Snapshot(arr, node[..]);
        var err := Set(ops[n].key, ops[n].val);
        ShapeThen(s0, s1, Snapshot(arr, node[..]), ops);
        AfterOne(s0, s1, Snapshot(arr, node[..]), ops, n);
        assert ops[..n + 1][..n] == ops[..n];
        n := n + 1;
      }
      assert ops[..n] == ops;
    }

    /** A program that goes through a table with `next` and, after each step, assigns to keys that the table has, nil
        included. It always comes to an end, is handed no key twice and only keys that have a value at that moment, and
        is handed every key that never loses its value on the way. */
    method Traverse(change: nat -> seq<Op>) returns (keys: seq<Key>, vals: seq<Value>)
      requires Valid() && forall t: nat :: AllPresent(arr, node[..], change(t))
      modifies this, node
      ensures Valid() && SameShape(old(arr), old(node[..]), arr, node[..])
      ensures |vals| == |keys|
      ensures forall t, u :: 0 <= t < u < |keys| ==> keys[t] != keys[u]
      ensures forall t :: 0 <= t < |keys| ==>
                vals[t] != Nil && vals[t] == LastWrite(Done(change, t), keys[t], old(Lookup(keys[t])))
      ensures forall k | KeepsValue(change, |keys|, k, old(Lookup(k))) :: Normal(k) in keys
      ensures forall k :: Lookup(k) == LastWrite(Done(change, |keys|), k, old(Lookup(k)))
    {
      hide WellFormed, Look, SameShape, Missing, AllPresent, NextKey, IsWalk, After, Done, KeepsValue;
      ghost var s0 := Snapshot(arr, node[..]);
      ghost var size := |arr| + node.Length;
      keys, vals := [], [];
      var k, v, ok := Next(NilKey);
      ghost var states, all := [s0], [k];
      ShapeIsSame(s0);
      WalkStarted(mp, s0, rank, lastfree, k, change);
      while k != NilKey
        invariant Valid() && (node == old(node) || fresh(node))
        invariant |states| == |all| == |keys| + 1 && |vals| == |keys| <= size && all == keys + [k]
        invariant states[0] == s0 && states[|keys|] == Snapshot(arr, node[..])
        invariant IsWalk(states, all) && SameShape(s0.arr, s0.nodes, arr, node[..])
        invariant forall t :: 0 <= t < |states| ==> After(s0, states[t], Done(change, t))
        invariant forall t :: 0 <= t < |keys| ==> IsEntry(states[t], keys[t], vals[t])
        invariant k != NilKey ==> Normal(k) == k && !Missing(arr, node[..], k) && IsEntry(states[|keys|], k, v)
        decreases size + 1 - |keys|
      {
        keys, vals := keys + [k], vals + [v];
        ghost var s1 := Snapshot(arr, node[..]);
        ShapeThen(s0, s0, s1, change(|keys| - 1));
        SetPresent(change(|keys| - 1));
        ghost var s2 := Snapshot(arr, node[..]);
        ShapeThen(s0, s1, s2, []);
        MissingStays(s1, s2, k);
        k, v, ok := Next(k);
        WalkGrows(mp, rank, lastfree, states, all, s2, k);
        AfterBoth(s0, s1, s2, change, |keys| - 1);
        states, all := states + [s2], all + [k];
        WalkBound(states, all);
      }
      TraversalMeans(states, all, keys, vals, change);
      AfterMeans(s0, states[|keys|], Done(change, |keys|));
    }
  }

  /** What a run of operations leaves under a key. */
  function LastWrite(ops: seq<Op>, k: Key, init: Value): Value {
    if ops == [] then init
    else if ops[|ops| - 1].Assigned? && OneKey(ops[|ops| - 1].key, k) then ops[|ops| - 1].val
    else LastWrite(ops[..|ops| - 1], k, init)
  }

  /** What a program has done by the time it asks for a key. */
  function Done(change: nat -> seq<Op>, t: nat): seq<Op> {
    if t == 0 then [] else Done(change, t - 1) + change(t - 1)
  }

  /** A key that has a value whenever a traversal of n steps asks for the next key. */
  ghost predicate KeepsValue(change: nat -> seq<Op>, n: nat, k: Key, init: Value) {
    forall t: nat :: t <= n ==> LastWrite(Done(change, t), k, init) != Nil
  }

  lemma {:induction false} LastWriteAppend(a: seq<Op>, b: seq<Op>, k: Key, init: Value)
    ensures LastWrite(a + b, k, init) == LastWrite(b, k, LastWrite(a, k, init))
  {
    if b == [] {
      assert a + b == a;
    } else {
      assert (a + b)[..|a + b| - 1] == a + b[..|b| - 1];
      LastWriteAppend(a, b[..|b| - 1], k, init);
    }
  }

  // ---- traversal order: array slots, then nodes ----

  function SlotVal(arr: seq<Value>, nodes: seq<Node>, s: nat): Value
    requires s < |arr| + |nodes|
  {
    if s < |arr| then arr[s] else nodes[s - |arr|].val
  }

  function SlotKey(arr: seq<Value>, nodes: seq<Node>, s: nat): Key
    requires s < |arr| + |nodes|
  {
    if s < |arr| then IntKey(s + 1) else nodes[s - |arr|].key
  }

  /** First slot from i on with a live value, or the number of slots. */
  function FirstLive(arr: seq<Value>, nodes: seq<Node>, i: nat): (r: nat)
    ensures i <= |arr| + |nodes| ==> i <= r <= |arr| + |nodes|
    ensures r < |arr| + |nodes| ==> SlotVal(arr, nodes, r) != Nil && i <= r
    ensures forall s :: i <= s < r && s < |arr| + |nodes| ==> SlotVal(arr, nodes, s) == Nil
    decreases |arr| + |nodes| - i
  {
    if i >= |arr| + |nodes| then |arr| + |nodes| else if SlotVal(arr, nodes, i) != Nil then i
      else FirstLive(arr, nodes, i + 1)
  }

  /** The position right after a present key; 0 for the start. */
  function IndexOf(arr: seq<Value>, nodes: seq<Node>, k: Key): nat {
    if k == NilKey then 0 else if InRange(k, |arr|) then k.i else |arr| + Find(nodes, k) + 1
  }

  function NextKey(arr: seq<Value>, nodes: seq<Node>, k: Key): Key {
    var s := FirstLive(arr, nodes, IndexOf(arr, nodes, k));
    if s < |arr| + |nodes| then SlotKey(arr, nodes, s) else NilKey
  }

  lemma LiveSlot(arr: seq<Value>, nodes: seq<Node>, i: nat)
    ensures var s := FirstLive(arr, nodes, i); s < |arr| + |nodes| ==> SlotVal(arr, nodes, s) != Nil
  {
  }

  lemma NormalKeys(mp: MainPosition, arr: seq<Value>, nodes: seq<Node>, rank: seq<real>, lastfree: int)
    requires WellFormed(mp, arr, nodes, rank, lastfree)
    ensures forall i :: 0 <= i < |nodes| && nodes[i].key != NilKey ==> Normal(nodes[i].key) == nodes[i].key
    ensures Find(nodes, FloatKey(NaN)) == |nodes|
    ensures forall k :: Normal(k) != k ==> Find(nodes, k) == |nodes|
  {
  }

  lemma LiveKeyed(mp: MainPosition, arr: seq<Value>, nodes: seq<Node>, rank: seq<real>, lastfree: int)
    requires WellFormed(mp, arr, nodes, rank, lastfree)
    ensures forall i :: 0 <= i < |nodes| && nodes[i].val != Nil ==> nodes[i].key != NilKey
    ensures HashLook(nodes, NilKey) == Nil
  {
  }

  lemma FoundNode(mp: MainPosition, arr: seq<Value>, nodes: seq<Node>, rank: seq<real>, lastfree: int, n: nat)
    requires WellFormed(mp, arr, nodes, rank, lastfree) && n < |nodes| && nodes[n].key != NilKey
    ensures Find(nodes, nodes[n].key) == n && !InRange(nodes[n].key, |arr|) && !Missing(arr, nodes, nodes[n].key)
    ensures IndexOf(arr, nodes, nodes[n].key) == n + 1 + |arr|
  {
    FindIs(nodes, nodes[n].key, n);
  }

  lemma NextLooks(mp: MainPosition, arr: seq<Value>, nodes: seq<Node>, rank: seq<real>, lastfree: int, i: nat)
    requires WellFormed(mp, arr, nodes, rank, lastfree)
    ensures forall s :: 0 <= s < |arr| + |nodes| && SlotVal(arr, nodes, s) != Nil ==>
              SlotKey(arr, nodes, s) != NilKey && Normal(SlotKey(arr, nodes, s)) == SlotKey(arr, nodes, s) &&
              Look(arr, nodes, SlotKey(arr, nodes, s)) == SlotVal(arr, nodes, s)
    ensures Look(arr, nodes, NilKey) == Nil
  {
    hide Scatter, UsedFrom, NoneInRange, FirstLive, NextKey;
    NormalKeys(mp, arr, nodes, rank, lastfree);
    LiveKeyed(mp, arr, nodes, rank, lastfree);
    forall s: nat | s < |arr| + |nodes| && SlotVal(arr, nodes, s) != Nil
      ensures SlotKey(arr, nodes, s) != NilKey && Normal(SlotKey(arr, nodes, s)) == SlotKey(arr, nodes, s)
      ensures Look(arr, nodes, SlotKey(arr, nodes, s)) == SlotVal(arr, nodes, s)
    {
      if s >= |arr| {
        FoundNode(mp, arr, nodes, rank, lastfree, s - |arr|);
      }
    }
  }

  // ---- a whole traversal, with assignments to existing keys in between ----

  datatype Snapshot = Snapshot(arr: seq<Value>, nodes: seq<Node>)

  /** The operations are assignments to keys that have a place. */
  ghost predicate AllPresent(arr: seq<Value>, nodes: seq<Node>, ops: seq<Op>) {
    forall i :: 0 <= i < |ops| ==> ops[i].Assigned? && !Missing(arr, nodes, Normal(ops[i].key))
  }

  /** The operations lead from one content to the other. */
  ghost predicate After(s0: Snapshot, s: Snapshot, ops: seq<Op>) {
    forall k :: Look(s.arr, s.nodes, Normal(k)) == LastWrite(ops, k, Look(s0.arr, s0.nodes, Normal(k)))
  }

  ghost predicate IsEntry(s: Snapshot, k: Key, v: Value) {
    v != Nil && Normal(k) == k && Look(s.arr, s.nodes, k) == v
  }

  function Before(keys: seq<Key>, t: nat): Key
    requires t <= |keys|
  {
    if t == 0 then NilKey else keys[t - 1]
  }

  /** A traversal: each key is what `next` gives for the one before, in the state of that moment, and
      between the moments only values have changed. */
  ghost predicate IsWalk(states: seq<Snapshot>, keys: seq<Key>) {
    |states| == |keys| &&
    (forall t :: 0 <= t < |states| ==> Keyed(states[t].nodes) && NoneInRange(states[t].nodes, |states[t].arr|)) &&
    (forall t :: 0 <= t < |states| ==> SameShape(states[0].arr, states[0].nodes, states[t].arr, states[t].nodes)) &&
    (forall t :: 0 <= t < |keys| ==>
       keys[t] == NextKey(states[t].arr, states[t].nodes, Before(keys, t))) &&
    (forall t :: 0 <= t < |keys| - 1 ==> keys[t] != NilKey)
  }

  /** The slot held a live value at every moment of the walk. */
  ghost predicate AlwaysLive(states: seq<Snapshot>, q: nat) {
    forall u :: 0 <= u < |states| ==>
      q < |states[u].arr| + |states[u].nodes| && SlotVal(states[u].arr, states[u].nodes, q) != Nil
  }

  lemma SlotPresent(mp: MainPosition, arr: seq<Value>, nodes: seq<Node>, rank: seq<real>, lastfree: int, s: nat)
    requires WellFormed(mp, arr, nodes, rank, lastfree)
    requires s < |arr| + |nodes| && SlotVal(arr, nodes, s) != Nil
    ensures !Missing(arr, nodes, SlotKey(arr, nodes, s))
  {
    hide Scatter, UsedFrom, NoneInRange, Find;
    if s >= |arr| {
      LiveKeyed(mp, arr, nodes, rank, lastfree);
      FoundNode(mp, arr, nodes, rank, lastfree, s - |arr|);
    }
  }

  lemma ShapeIsSame(s: Snapshot)
    ensures SameShape(s.arr, s.nodes, s.arr, s.nodes) && After(s, s, [])
  {
  }

  lemma PresentAt(arr: seq<Value>, nodes: seq<Node>, ops: seq<Op>, n: nat)
    requires AllPresent(arr, nodes, ops) && n < |ops|
    ensures ops[n].Assigned? && !Missing(arr, nodes, Normal(ops[n].key))
  {
  }

  lemma MissingStays(s: Snapshot, s': Snapshot, k: Key)
    requires SameShape(s.arr, s.nodes, s'.arr, s'.nodes)
    ensures Missing(s'.arr, s'.nodes, k) <==> Missing(s.arr, s.nodes, k)
  {
    FindSame(s.nodes, s'.nodes, k, 0);
  }

  lemma ShapeThen(s0: Snapshot, s1: Snapshot, s2: Snapshot, ops: seq<Op>)
    requires SameShape(s0.arr, s0.nodes, s1.arr, s1.nodes) && SameShape(s1.arr, s1.nodes, s2.arr, s2.nodes)
    requires AllPresent(s1.arr, s1.nodes, ops)
    ensures SameShape(s0.arr, s0.nodes, s2.arr, s2.nodes) && AllPresent(s2.arr, s2.nodes, ops)
  {
    forall i | 0 <= i < |ops| ensures !Missing(s2.arr, s2.nodes, Normal(ops[i].key)) {
      MissingStays(s1, s2, Normal(ops[i].key));
    }
  }

  lemma AfterOne(s0: Snapshot, s1: Snapshot, s2: Snapshot, ops: seq<Op>, n: nat)
    requires n < |ops| && ops[n].Assigned? && After(s0, s1, ops[..n])
    requires forall k :: Look(s2.arr, s2.nodes, Normal(k)) ==
                         if OneKey(k, ops[n].key) then ops[n].val else Look(s1.arr, s1.nodes, Normal(k))
    ensures After(s0, s2, ops[..n + 1])
  {
    hide Look;
    assert ops[..n + 1][..n] == ops[..n];
  }

  lemma AfterMeans(s0: Snapshot, s: Snapshot, ops: seq<Op>)
    requires After(s0, s, ops)
    ensures forall k :: Look(s.arr, s.nodes, Normal(k)) == LastWrite(ops, k, Look(s0.arr, s0.nodes, Normal(k)))
  {
  }

  lemma AfterBoth(s0: Snapshot, s1: Snapshot, s2: Snapshot, change: nat -> seq<Op>, t: nat)
    requires After(s0, s1, Done(change, t)) && After(s1, s2, change(t))
    ensures After(s0, s2, Done(change, t + 1))
  {
    hide Look;
    forall k ensures Look(s2.arr, s2.nodes, Normal(k)) ==
                     LastWrite(Done(change, t + 1), k, Look(s0.arr, s0.nodes, Normal(k)))
    {
      LastWriteAppend(Done(change, t), change(t), k, Look(s0.arr, s0.nodes, Normal(k)));
    }
  }

  lemma WalkStarted(mp: MainPosition, s: Snapshot, rank: seq<real>, lastfree: int, k: Key, change: nat -> seq<Op>)
    requires WellFormed(mp, s.arr, s.nodes, rank, lastfree) && k == NextKey(s.arr, s.nodes, NilKey)
    ensures IsWalk([s], [k]) && After(s, s, Done(change, 0))
  {
    hide NextKey, Look, UsedFrom;
  }

  lemma WalkGrows(mp: MainPosition, rank: seq<real>, lastfree: int, states: seq<Snapshot>, keys: seq<Key>,
                  s: Snapshot, k: Key)
    requires IsWalk(states, keys) && |keys| > 0 && keys[|keys| - 1] != NilKey
    requires SameShape(states[0].arr, states[0].nodes, s.arr, s.nodes) && WellFormed(mp, s.arr, s.nodes, rank, lastfree)
    requires k == NextKey(s.arr, s.nodes, keys[|keys| - 1])
    ensures IsWalk(states + [s], keys + [k])
  {
    hide NextKey, NoneInRange, UsedFrom, SameShape, Keyed;
    assert Keyed(s.nodes) && NoneInRange(s.nodes, |s.arr|) by {
      ShapedWell(mp, s.arr, s.nodes, rank, lastfree);
    }
  }

  lemma ShapedWell(mp: MainPosition, arr: seq<Value>, nodes: seq<Node>, rank: seq<real>, lastfree: int)
    requires WellFormed(mp, arr, nodes, rank, lastfree)
    ensures Keyed(nodes) && NoneInRange(nodes, |arr|)
  {
  }

  lemma WalkBound(states: seq<Snapshot>, keys: seq<Key>)
    requires IsWalk(states, keys) && |keys| > 0
    ensures |keys| <= |states[0].arr| + |states[0].nodes| + 1
  {
    hide NextKey, NoneInRange, SameShape, Keyed;
    TraversalIsExact(states, keys);
  }

  lemma SlotIndex(arr: seq<Value>, nodes: seq<Node>, s: nat)
    requires Keyed(nodes) && NoneInRange(nodes, |arr|) && s < |arr| + |nodes| && SlotKey(arr, nodes, s) != NilKey
    ensures IndexOf(arr, nodes, SlotKey(arr, nodes, s)) == s + 1
  {
    if s >= |arr| {
      FindIs(nodes, nodes[s - |arr|].key, s - |arr|);
    }
  }

  lemma IndexKept(arr: seq<Value>, nodes: seq<Node>, arr': seq<Value>, nodes': seq<Node>, k: Key)
    requires SameShape(arr, nodes, arr', nodes')
    ensures IndexOf(arr', nodes', k) == IndexOf(arr, nodes, k)
  {
    FindSame(nodes, nodes', k, 0);
  }

  /** Position of the t-th key of a walk, in the shape that all its states share. */
  ghost function Position(states: seq<Snapshot>, keys: seq<Key>, t: int): nat
    requires |states| > 0 && t < |keys|
  {
    if t < 0 then 0 else IndexOf(states[0].arr, states[0].nodes, keys[t])
  }

  lemma NextSlot(arr: seq<Value>, nodes: seq<Node>, k: Key)
    requires Keyed(nodes) && NoneInRange(nodes, |arr|)
    ensures var s := FirstLive(arr, nodes, IndexOf(arr, nodes, k));
            if NextKey(arr, nodes, k) == NilKey then s >= |arr| + |nodes|
            else s < |arr| + |nodes| && NextKey(arr, nodes, k) == SlotKey(arr, nodes, s) &&
                 IndexOf(arr, nodes, NextKey(arr, nodes, k)) == s + 1 && IndexOf(arr, nodes, k) <= s
  {
    var s := FirstLive(arr, nodes, IndexOf(arr, nodes, k));
    if s < |arr| + |nodes| {
      assert SlotVal(arr, nodes, s) != Nil;
      SlotIndex(arr, nodes, s);
    }
  }

  lemma WalkAdvances(states: seq<Snapshot>, keys: seq<Key>, t: nat)
    requires IsWalk(states, keys) && t < |keys|
    ensures t == 0 ==> Position(states, keys, t - 1) == 0
    ensures var s := FirstLive(states[t].arr, states[t].nodes, Position(states, keys, t - 1));
            if keys[t] == NilKey then s >= |states[t].arr| + |states[t].nodes|
            else s < |states[t].arr| + |states[t].nodes| && keys[t] == SlotKey(states[t].arr, states[t].nodes, s) &&
                 Position(states, keys, t) == s + 1 && Position(states, keys, t - 1) <= s
  {
    var st := states[t];
    var prev := Before(keys, t);
    IndexKept(states[0].arr, states[0].nodes, st.arr, st.nodes, prev);
    IndexKept(states[0].arr, states[0].nodes, st.arr, st.nodes, keys[t]);
    NextSlot(st.arr, st.nodes, prev);
    assert Position(states, keys, t - 1) == IndexOf(st.arr, st.nodes, prev);
    hide FirstLive, NextKey;
    assert keys[t] == NextKey(st.arr, st.nodes, prev);
  }

  lemma {:induction false} WalkOrdered(states: seq<Snapshot>, keys: seq<Key>, t: nat, u: nat)
    requires IsWalk(states, keys) && t < u < |keys| && keys[u] != NilKey
    ensures Position(states, keys, t) < Position(states, keys, u)
    decreases u
  {
    hide FirstLive, NextKey, Position, Keyed, NoneInRange;
    WalkAdvances(states, keys, u);
    if t < u - 1 {
      WalkOrdered(states, keys, t, u - 1);
    }
  }

  lemma {:induction false} WalkCovers(states: seq<Snapshot>, keys: seq<Key>, t: nat, q: nat)
    requires IsWalk(states, keys) && t < |keys|
    requires q < |states[0].arr| + |states[0].nodes| && AlwaysLive(states, q)
    ensures (exists u :: 0 <= u <= t && keys[u] == SlotKey(states[0].arr, states[0].nodes, q)) ||
            (keys[t] != NilKey && Position(states, keys, t) <= q)
  {
    hide NextKey, Position, Keyed, NoneInRange;
    if t > 0 {
      WalkCovers(states, keys, t - 1, q);
    }
    WalkAdvances(states, keys, t);
    var st := states[t];
    assert SlotVal(st.arr, st.nodes, q) != Nil;
    assert SlotKey(st.arr, st.nodes, q) == SlotKey(states[0].arr, states[0].nodes, q);
    var s := FirstLive(st.arr, st.nodes, Position(states, keys, t - 1));
    if s == q {
      assert keys[t] == SlotKey(states[0].arr, states[0].nodes, q);
    }
  }

  /** Traversal is exact: a walk returns no key twice, has at most as many keys as the table has slots,
      and, once it has ended, has returned every key that kept a live value throughout. */
  lemma TraversalIsExact(states: seq<Snapshot>, keys: seq<Key>)
    requires IsWalk(states, keys) && |keys| > 0 && |states| == |keys|
    ensures forall t, u :: 0 <= t < u < |keys| ==> keys[t] != keys[u]
    ensures |keys| <= |states[0].arr| + |states[0].nodes| + 1
    ensures keys[|keys| - 1] == NilKey ==>
              forall q: nat | q < |states[0].arr| + |states[0].nodes| && AlwaysLive(states, q) ::
                SlotKey(states[0].arr, states[0].nodes, q) in keys
  {
    hide FirstLive, NextKey, IsWalk, SlotKey, AlwaysLive, IndexOf;
    forall t, u | 0 <= t < u < |keys| ensures keys[t] != keys[u] {
      KeysDiffer(states, keys, t, u);
    }
    WalkLength(states, keys, |keys| - 1);
    if keys[|keys| - 1] == NilKey {
      forall q: nat | q < |states[0].arr| + |states[0].nodes| && AlwaysLive(states, q)
        ensures SlotKey(states[0].arr, states[0].nodes, q) in keys
      {
        WalkReturns(states, keys, q);
      }
    }
  }

  /** The slot of a key. */
  ghost function SlotOf(s: Snapshot, k: Key): nat {
    if InRange(k, |s.arr|) then k.i - 1 else |s.arr| + Find(s.nodes, k)
  }

  lemma SlotHolds(s0: Snapshot, s: Snapshot, k: Key)
    requires SameShape(s0.arr, s0.nodes, s.arr, s.nodes) && Look(s.arr, s.nodes, k) != Nil
    ensures SlotOf(s0, k) < |s.arr| + |s.nodes| && SlotVal(s.arr, s.nodes, SlotOf(s0, k)) == Look(s.arr, s.nodes, k)
    ensures SlotKey(s.arr, s.nodes, SlotOf(s0, k)) == k
  {
    FindSame(s0.nodes, s.nodes, k, 0);
  }

  /** A key with a value in all states of a finished walk is returned. */
  lemma LiveKeyReturned(states: seq<Snapshot>, keys: seq<Key>, k: Key)
    requires IsWalk(states, keys) && |keys| > 0 && keys[|keys| - 1] == NilKey
    requires forall u :: 0 <= u < |states| ==> Look(states[u].arr, states[u].nodes, k) != Nil
    ensures k in keys
  {
    hide NextKey, Look, NoneInRange, SlotVal, SlotKey, SlotOf, Keyed;
    var q := SlotOf(states[0], k);
    forall u | 0 <= u < |states|
      ensures q < |states[u].arr| + |states[u].nodes| && SlotVal(states[u].arr, states[u].nodes, q) != Nil
    {
      SlotHolds(states[0], states[u], k);
    }
    SlotHolds(states[0], states[0], k);
    WalkReturns(states, keys, q);
  }

  /** What a finished traversal amounts to, in terms of what the program has assigned. */
  lemma TraversalMeans(states: seq<Snapshot>, all: seq<Key>, keys: seq<Key>, vals: seq<Value>, change: nat -> seq<Op>)
    requires IsWalk(states, all) && all == keys + [NilKey] && |states| == |all| && |vals| == |keys|
    requires forall t :: 0 <= t < |states| ==> After(states[0], states[t], Done(change, t))
    requires forall t :: 0 <= t < |keys| ==> IsEntry(states[t], keys[t], vals[t])
    ensures forall t, u :: 0 <= t < u < |keys| ==> keys[t] != keys[u]
    ensures forall t :: 0 <= t < |keys| ==> vals[t] != Nil
    ensures forall t :: 0 <= t < |keys| ==>
              vals[t] == LastWrite(Done(change, t), keys[t], Look(states[0].arr, states[0].nodes, Normal(keys[t])))
    ensures forall k | KeepsValue(change, |keys|, k, Look(states[0].arr, states[0].nodes, Normal(k))) ::
              Normal(k) in keys
  {
    hide NextKey, Look, IsWalk, Done, KeepsValue, LastWrite;
    TraversalIsExact(states, all);
    assert forall t :: 0 <= t < |keys| ==> all[t] == keys[t];
    forall k | KeepsValue(change, |keys|, k, Look(states[0].arr, states[0].nodes, Normal(k)))
      ensures Normal(k) in keys
    {
      KeptIsReturned(states, all, k, change);
    }
  }

  lemma KeptIsReturned(states: seq<Snapshot>, all: seq<Key>, k: Key, change: nat -> seq<Op>)
    requires IsWalk(states, all) && |all| > 0 && all[|all| - 1] == NilKey
    requires forall t :: 0 <= t < |states| ==> After(states[0], states[t], Done(change, t))
    requires KeepsValue(change, |all| - 1, k, Look(states[0].arr, states[0].nodes, Normal(k)))
    ensures Normal(k) in all && Normal(k) != NilKey
  {
    hide NextKey, Done, LastWrite, SameShape, Keyed, NoneInRange;
    forall u | 0 <= u < |states| ensures Look(states[u].arr, states[u].nodes, Normal(k)) != Nil {
      assert After(states[0], states[u], Done(change, u));
    }
    LiveKeyReturned(states, all, Normal(k));
    assert Keyed(states[0].nodes);
    NilIsAbsent(states[0].arr, states[0].nodes);
  }

  lemma NilIsAbsent(arr: seq<Value>, nodes: seq<Node>)
    requires Keyed(nodes)
    ensures Look(arr, nodes, NilKey) == Nil
  {
  }

  lemma KeysDiffer(states: seq<Snapshot>, keys: seq<Key>, t: nat, u: nat)
    requires IsWalk(states, keys) && t < u < |keys|
    ensures keys[t] != keys[u]
  {
    hide NextKey, FirstLive;
    if keys[u] != NilKey {
      WalkOrdered(states, keys, t, u);
    }
  }

  lemma WalkReturns(states: seq<Snapshot>, keys: seq<Key>, q: nat)
    requires IsWalk(states, keys) && |keys| > 0 && keys[|keys| - 1] == NilKey
    requires q < |states[0].arr| + |states[0].nodes| && AlwaysLive(states, q)
    ensures SlotKey(states[0].arr, states[0].nodes, q) in keys
  {
    hide NextKey, FirstLive, Position, SlotKey;
    WalkCovers(states, keys, |keys| - 1, q);
  }

  lemma {:induction false} WalkLength(states: seq<Snapshot>, keys: seq<Key>, t: nat)
    requires IsWalk(states, keys) && t < |keys|
    ensures t <= |states[0].arr| + |states[0].nodes|
    ensures keys[t] != NilKey ==> t < Position(states, keys, t) <= |states[0].arr| + |states[0].nodes|
  {
    hide FirstLive, NextKey, Position, Keyed, NoneInRange;
    if t > 0 {
      WalkLength(states, keys, t - 1);
    }
    WalkAdvances(states, keys, t);
  }

  // ---- facts about counting ----

  /** Keys of the nodes with a live value, from node i on. */
  function LiveFrom(nodes: seq<Node>, i: nat): set<Key> {
    set j | i <= j < |nodes| && nodes[j].val != Nil :: nodes[j].key
  }

  function IntsOf(keys: set<Key>): set<int> { set k | k in keys && k.IntKey? && 1 <= k.i <= MAXASIZE :: k.i }

  /** The integer keys that decide the size of the array part: all live ones and the extra key. */
  function IntKeys(arr: seq<Value>, nodes: seq<Node>, ek: Key): set<int> {
    ArrayInts(arr) + IntsOf(LiveFrom(nodes, 0) + {ek})
  }

  /** All live keys of a table, and the extra key. */
  function AllKeys(arr: seq<Value>, nodes: seq<Node>, ek: Key): set<Key> {
    AsKeys(ArrayInts(arr)) + LiveFrom(nodes, 0) + {ek}
  }

  lemma NoneLive(nodes: seq<Node>)
    ensures LiveFrom(nodes, |nodes|) == {} && IntsOf({}) == {}
  {
  }

  lemma LiveStep(mp: MainPosition, arr: seq<Value>, nodes: seq<Node>, rank: seq<real>, lastfree: int, i: nat)
    requires WellFormed(mp, arr, nodes, rank, lastfree) && i < |nodes|
    ensures nodes[i].val == Nil ==> LiveFrom(nodes, i) == LiveFrom(nodes, i + 1)
    ensures nodes[i].val != Nil ==> LiveFrom(nodes, i) == LiveFrom(nodes, i + 1) + {nodes[i].key}
    ensures nodes[i].val != Nil ==> nodes[i].key !in LiveFrom(nodes, i + 1)
    ensures nodes[i].val != Nil && nodes[i].key.IntKey? && 1 <= nodes[i].key.i <= MAXASIZE ==>
              nodes[i].key.i !in ArrayInts(arr) + IntsOf(LiveFrom(nodes, i + 1)) &&
              IntsOf(LiveFrom(nodes, i)) == IntsOf(LiveFrom(nodes, i + 1)) + {nodes[i].key.i} &&
              ArrayInts(arr) + IntsOf(LiveFrom(nodes, i)) ==
                  ArrayInts(arr) + IntsOf(LiveFrom(nodes, i + 1)) + {nodes[i].key.i}
    ensures nodes[i].val != Nil && !(nodes[i].key.IntKey? && 1 <= nodes[i].key.i <= MAXASIZE) ==>
              IntsOf(LiveFrom(nodes, i)) == IntsOf(LiveFrom(nodes, i + 1))
  {
    hide Reachable, Brent, Linked, UsedFrom;
    assert LiveFrom(nodes, i) == LiveFrom(nodes, i + 1) + if nodes[i].val != Nil then {nodes[i].key} else {};
    forall j | i + 1 <= j < |nodes| && nodes[i].val != Nil
      ensures nodes[j].key != nodes[i].key
    {
    }
    IntsOfAdd(LiveFrom(nodes, i + 1), nodes[i].key);
    if nodes[i].key.IntKey? && nodes[i].key.i in IntsOf(LiveFrom(nodes, i + 1)) {
      assert nodes[i].key in LiveFrom(nodes, i + 1);
    }
  }

  lemma IntsOfAdd(keys: set<Key>, k: Key)
    ensures IntsOf(keys + {k}) == IntsOf(keys) + if k.IntKey? && 1 <= k.i <= MAXASIZE then {k.i} else {}
  {
    forall i ensures i in IntsOf(keys + {k}) <==> i in IntsOf(keys) || (k == IntKey(i) && 1 <= i <= MAXASIZE) {
      if i in IntsOf(keys) { assert IntKey(i) in keys + {k}; }
      if k == IntKey(i) && 1 <= i <= MAXASIZE { assert IntKey(i) in keys + {k}; }
    }
  }

  lemma HashKeysApart(mp: MainPosition, arr: seq<Value>, nodes: seq<Node>, rank: seq<real>, lastfree: int, k: Key)
    requires WellFormed(mp, arr, nodes, rank, lastfree) && k in LiveFrom(nodes, 0)
    ensures !InRange(k, |arr|) && Find(nodes, k) < |nodes|
  {
    hide Scatter, UsedFrom;
    var j :| 0 <= j < |nodes| && nodes[j].val != Nil && nodes[j].key == k;
  }

  lemma IntsCounted(mp: MainPosition, arr: seq<Value>, nodes: seq<Node>, rank: seq<real>, lastfree: int, ek: Key)
    requires WellFormed(mp, arr, nodes, rank, lastfree) && Stored(ek) && Missing(arr, nodes, ek)
    ensures Candidates(IntKeys(arr, nodes, ek))
    ensures IntsOf(LiveFrom(nodes, 0)) !! ArrayInts(arr)
    ensures ek.IntKey? && 1 <= ek.i <= MAXASIZE ==>
              ek.i !in ArrayInts(arr) + IntsOf(LiveFrom(nodes, 0)) &&
              IntKeys(arr, nodes, ek) == ArrayInts(arr) + IntsOf(LiveFrom(nodes, 0)) + {ek.i}
    ensures !(ek.IntKey? && 1 <= ek.i <= MAXASIZE) ==>
              IntKeys(arr, nodes, ek) == ArrayInts(arr) + IntsOf(LiveFrom(nodes, 0))
  {
    IntsOfAdd(LiveFrom(nodes, 0), ek);
    forall i | i in IntsOf(LiveFrom(nodes, 0)) ensures i !in ArrayInts(arr) && IntKey(i) != ek {
      assert IntKey(i) in LiveFrom(nodes, 0);
      HashKeysApart(mp, arr, nodes, rank, lastfree, IntKey(i));
    }
    hide WellFormed, LiveFrom, IntsOf;
    assert ek.IntKey? ==> ek == IntKey(ek.i);
  }

  lemma AllCounted(mp: MainPosition, arr: seq<Value>, nodes: seq<Node>, rank: seq<real>, lastfree: int, ek: Key)
    requires WellFormed(mp, arr, nodes, rank, lastfree) && Stored(ek) && Missing(arr, nodes, ek)
    ensures |AllKeys(arr, nodes, ek)| == |ArrayInts(arr)| + |LiveFrom(nodes, 0)| + 1
  {
    var a, l := AsKeys(ArrayInts(arr)), LiveFrom(nodes, 0);
    AsKeysSize(ArrayInts(arr));
    forall k | k in l ensures k !in a && k != ek {
      HashKeysApart(mp, arr, nodes, rank, lastfree, k);
    }
    hide WellFormed, LiveFrom;
    assert a !! l;
    assert |a + l| == |a| + |l|;
    assert ek !in a + l;
  }

  lemma OptimalFits(s: set<int>, n: int)
    requires Optimal(s, n)
    ensures 0 <= n <= MAXASIZE
  {
    if n != 0 {
      var j: nat :| j <= MAXABITS && n == Pow2(j);
      Pow2Grows(j, MAXABITS);
      Pow2At31();
    }
  }

  /** The live keys and the extra key that do not fit into an array part of n elements. */
  function HashNeed(arr: seq<Value>, nodes: seq<Node>, ek: Key, n: int): set<Key> {
    set k | k in AllKeys(arr, nodes, ek) && !InRange(k, n)
  }

  lemma HashNeedSize(arr: seq<Value>, nodes: seq<Node>, ek: Key, n: int)
    requires 0 <= n <= MAXASIZE && |arr| <= MAXASIZE
    ensures |HashNeed(arr, nodes, ek, n)| == |AllKeys(arr, nodes, ek)| - |UpTo(IntKeys(arr, nodes, ek), n)|
  {
    var all, rest := AllKeys(arr, nodes, ek), HashNeed(arr, nodes, ek, n);
    var s := UpTo(IntKeys(arr, nodes, ek), n);
    forall k ensures k in AsKeys(s) <==> k in all && InRange(k, n) {
      InRangeKeys(arr, nodes, ek, n, k);
    }
    hide AllKeys, UpTo, IntKeys, AsKeys;
    assert all == rest + AsKeys(s);
    assert rest !! AsKeys(s);
    AsKeysSize(s);
  }

  lemma InRangeKeys(arr: seq<Value>, nodes: seq<Node>, ek: Key, n: int, k: Key)
    requires 0 <= n <= MAXASIZE && |arr| <= MAXASIZE
    ensures k in AsKeys(UpTo(IntKeys(arr, nodes, ek), n)) <==> k in AllKeys(arr, nodes, ek) && InRange(k, n)
  {
    hide LiveFrom;
    if k in AllKeys(arr, nodes, ek) && InRange(k, n) {
      assert k.i in IntKeys(arr, nodes, ek);
    }
    if k in AsKeys(UpTo(IntKeys(arr, nodes, ek), n)) {
      assert k.i in IntKeys(arr, nodes, ek) && k == IntKey(k.i);
    }
  }

  lemma NeedsOne(arr: seq<Value>, nodes: seq<Node>, ek: Key, n: int)
    ensures !InRange(ek, n) ==> ek in HashNeed(arr, nodes, ek, n)
    ensures |HashNeed(arr, nodes, ek, n) - {ek}| == |HashNeed(arr, nodes, ek, n)| - (if InRange(ek, n) then 0 else 1)
  {
    hide AllKeys;
    assert ek in AllKeys(arr, nodes, ek) by { KeyIsCounted(arr, nodes, ek); }
    if InRange(ek, n) {
      assert HashNeed(arr, nodes, ek, n) - {ek} == HashNeed(arr, nodes, ek, n);
    }
  }

  lemma KeyIsCounted(arr: seq<Value>, nodes: seq<Node>, ek: Key)
    ensures ek in AllKeys(arr, nodes, ek)
  {
  }

  lemma ArrayFits(mp: MainPosition, arr: seq<Value>, nodes: seq<Node>, rank: seq<real>, lastfree: int)
    requires WellFormed(mp, arr, nodes, rank, lastfree)
    ensures |arr| <= MAXASIZE
  {
  }

  lemma LiveAreKept(mp: MainPosition, arr: seq<Value>, nodes: seq<Node>, rank: seq<real>, lastfree: int, ek: Key,
                    n: int)
    requires WellFormed(mp, arr, nodes, rank, lastfree) && Stored(ek) && Missing(arr, nodes, ek)
    ensures forall k :: Look(arr, nodes, k) != Nil && !InRange(k, n) ==> k in HashNeed(arr, nodes, ek, n) - {ek}
  {
    hide Scatter, UsedFrom;
    forall k | Look(arr, nodes, k) != Nil && !InRange(k, n)
      ensures k in AllKeys(arr, nodes, ek) && k != ek
    {
      if InRange(k, |arr|) {
        assert k.i in ArrayInts(arr);
      } else {
        assert nodes[Find(nodes, k)].key in LiveFrom(nodes, 0);
      }
    }
  }

  /** An array part that grows leaves the hash part enough room if it keeps its size. */
  lemma LiveHaveRoom(mp: MainPosition, arr: seq<Value>, nodes: seq<Node>, rank: seq<real>, lastfree: int, n: int)
    requires WellFormed(mp, arr, nodes, rank, lastfree) && n >= |arr|
    ensures |LiveFrom(nodes, 0)| <= (if lastfree == -1 then 0 else |nodes|) <= MAXHSIZE
    ensures forall k :: Look(arr, nodes, k) != Nil && !InRange(k, n) ==> k in LiveFrom(nodes, 0)
  {
    hide Scatter, UsedFrom, NoneInRange;
    LiveCount(nodes, 0);
    if lastfree == -1 {
      assert LiveFrom(nodes, 0) == {};
    }
    forall k | Look(arr, nodes, k) != Nil && !InRange(k, n) ensures k in LiveFrom(nodes, 0) {
      assert nodes[Find(nodes, k)].key in LiveFrom(nodes, 0);
    }
  }

  lemma {:induction false} LiveCount(nodes: seq<Node>, i: nat)
    requires i <= |nodes|
    ensures |LiveFrom(nodes, i)| <= |nodes| - i
    decreases |nodes| - i
  {
    if i == |nodes| {
      NoneLive(nodes);
    } else {
      LiveCount(nodes, i + 1);
      var rest := LiveFrom(nodes, i + 1);
      assert LiveFrom(nodes, i) == rest || LiveFrom(nodes, i) == rest + {nodes[i].key};
    }
  }

  // ---- facts about moving everything over ----

  /** The key has been reinserted: array slots up to i and nodes from j on are done. */
  ghost predicate Moved(oldN: seq<Node>, k: Key, i: int, j: int) {
    InRange(k, i) || j <= Find(oldN, k) < |oldN|
  }

  ghost predicate Transferred(oldA: seq<Value>, oldN: seq<Node>, arr: seq<Value>, nodes: seq<Node>, i: int, j: int) {
    forall k :: Look(arr, nodes, k) == if Moved(oldN, k, i, j) then Look(oldA, oldN, k) else Nil
  }

  lemma EmptyVector(mp: MainPosition, nodes: seq<Node>, rank: seq<real>)
    requires |nodes| > 0 && |rank| == |nodes| && forall i :: 0 <= i < |nodes| ==> nodes[i] == FREE
    ensures Scatter(mp, nodes, rank) && KeysOf(nodes) == {}
    ensures forall k :: HashLook(nodes, k) == Nil
  {
  }

  lemma NothingMoved(oldA: seq<Value>, oldN: seq<Node>, arr: seq<Value>, nodes: seq<Node>, i0: int)
    requires forall k :: HashLook(nodes, k) == Nil
    requires 0 <= i0 <= |oldA| && i0 <= |arr| && arr[..i0] == oldA[..i0]
    requires forall i :: i0 <= i < |arr| ==> arr[i] == Nil
    ensures Transferred(oldA, oldN, arr, nodes, i0, |oldN|)
  {
    forall k ensures Look(arr, nodes, k) == if Moved(oldN, k, i0, |oldN|) then Look(oldA, oldN, k) else Nil {
      if InRange(k, i0) {
        assert arr[k.i - 1] == arr[..i0][k.i - 1];
        assert oldA[k.i - 1] == oldA[..i0][k.i - 1];
      }
    }
  }

  lemma MovedArraySlot(oldA: seq<Value>, oldN: seq<Node>, arr: seq<Value>, nodes: seq<Node>, arr': seq<Value>,
                       nodes': seq<Node>, i: nat)
    requires i < |oldA| && Transferred(oldA, oldN, arr, nodes, i, |oldN|)
    requires if oldA[i] == Nil then arr' == arr && nodes' == nodes
             else forall k :: Look(arr', nodes', k) == if k == IntKey(i + 1) then oldA[i] else Look(arr, nodes, k)
    ensures Transferred(oldA, oldN, arr', nodes', i + 1, |oldN|)
  {
    forall k ensures InRange(k, i + 1) <==> InRange(k, i) || k == IntKey(i + 1) {
      if k.IntKey? {
        assert k == IntKey(k.i);
      }
    }
    hide HashLook;
    assert Look(oldA, oldN, IntKey(i + 1)) == oldA[i];
  }

  lemma OldNode(mp: MainPosition, oldA: seq<Value>, oldN: seq<Node>, rank: seq<real>, lastfree: int, j: nat)
    requires WellFormed(mp, oldA, oldN, rank, lastfree) && j < |oldN|
    ensures Look(oldA, oldN, oldN[j].key) == oldN[j].val && Look(oldA, oldN, NilKey) == Nil
    ensures oldN[j].key != NilKey ==> Find(oldN, oldN[j].key) == j && !InRange(oldN[j].key, |oldA|)
    ensures oldN[j].val != Nil ==> Stored(oldN[j].key) && Normal(oldN[j].key) == oldN[j].key && oldN[j].key != NilKey
  {
    hide Reachable, Brent, Linked, UsedFrom;
    if oldN[j].key != NilKey {
      FindIs(oldN, oldN[j].key, j);
    }
  }

  lemma MovedNode(mp: MainPosition, oldA: seq<Value>, oldN: seq<Node>, rank: seq<real>, lastfree: int,
                  arr: seq<Value>, nodes: seq<Node>, arr': seq<Value>, nodes': seq<Node>, j: nat)
    requires WellFormed(mp, oldA, oldN, rank, lastfree) && j < |oldN|
    requires Transferred(oldA, oldN, arr, nodes, |oldA|, j + 1)
    requires if oldN[j].val == Nil then arr' == arr && nodes' == nodes
             else forall k :: Look(arr', nodes', k) == if k == oldN[j].key then oldN[j].val else Look(arr, nodes, k)
    ensures Transferred(oldA, oldN, arr', nodes', |oldA|, j)
  {
    OldNode(mp, oldA, oldN, rank, lastfree, j);
    MovedByOne(oldN, |oldA|, j);
    hide WellFormed, Look, Moved, Keyed;
    forall k ensures Look(arr', nodes', k) == if Moved(oldN, k, |oldA|, j) then Look(oldA, oldN, k) else Nil {
    }
  }

  lemma MovedByOne(oldN: seq<Node>, i: int, j: nat)
    requires j < |oldN|
    ensures forall k :: Moved(oldN, k, i, j) ==> Moved(oldN, k, i, j + 1) || k == oldN[j].key
    ensures forall k :: Moved(oldN, k, i, j + 1) ==> Moved(oldN, k, i, j)
    ensures Find(oldN, oldN[j].key) == j && !InRange(oldN[j].key, i) ==>
              Moved(oldN, oldN[j].key, i, j) && !Moved(oldN, oldN[j].key, i, j + 1)
  {
  }

  lemma NothingChanged(a: seq<Value>, n: seq<Node>)
    ensures SameLooks(a, n, a, n)
  {
  }

  lemma DummyHoldsNothing(mp: MainPosition, oldA: seq<Value>, oldN: seq<Node>, arr: seq<Value>, nodes: seq<Node>,
                          rank: seq<real>, lastfree: int, i: int)
    requires oldN == [FREE] && Transferred(oldA, oldN, arr, nodes, i, |oldN|)
    ensures Transferred(oldA, oldN, arr, nodes, i, 0)
  {
    forall k ensures Moved(oldN, k, i, 0) ==> Moved(oldN, k, i, |oldN|) || k == NilKey {
    }
  }

  lemma AllMoved(oldA: seq<Value>, oldN: seq<Node>, arr: seq<Value>, nodes: seq<Node>, i: int)
    requires i == |oldA| && Transferred(oldA, oldN, arr, nodes, i, 0)
    ensures SameLooks(oldA, oldN, arr, nodes)
  {
  }

  lemma KeptKeysFit(mp: MainPosition, arr: seq<Value>, nodes: seq<Node>, rank: seq<real>, lastfree: int, k: Key,
                    keep: set<Key>)
    requires WellFormed(mp, arr, nodes, rank, lastfree) && Stored(k) && KeysOf(nodes) <= keep
    requires InRange(k, |arr|) || (k in keep && |keep| <= |nodes| && lastfree != -1)
    ensures !Missing(arr, nodes, k) || HasRoom(nodes, lastfree)
    ensures !Missing(arr, nodes, k) || k in keep
  {
    if Missing(arr, nodes, k) {
      assert k !in KeysOf(nodes);
      assert |keep - {k}| == |keep| - 1;
      FreeNodeExists(nodes, keep - {k});
    }
  }

  // ---- facts about inserting ----

  lemma NilIsMissing(mp: MainPosition, arr: seq<Value>, nodes: seq<Node>, rank: seq<real>, lastfree: int)
    requires WellFormed(mp, arr, nodes, rank, lastfree)
    ensures Missing(arr, nodes, NilKey) && Look(arr, nodes, NilKey) == Nil && Keyed(nodes)
  {
    LiveKeyed(mp, arr, nodes, rank, lastfree);
  }

  lemma MissingLooksNil(arr: seq<Value>, nodes: seq<Node>, k: Key)
    requires Missing(arr, nodes, k) && k != NilKey
    ensures Look(arr, nodes, k) == Nil
  {
  }

  lemma CellHolds(arr: seq<Value>, nodes: seq<Node>, k: Key, loc: Loc)
    requires CellOf(arr, nodes, k, loc) && Keyed(nodes)
    ensures Look(arr, nodes, k) == if loc.InArray? then arr[loc.i] else nodes[loc.i].val
  {
    if loc.InNode? { FindIs(nodes, k, loc.i); }
  }

  lemma MissingMeans(arr: seq<Value>, nodes: seq<Node>, k: Key)
    requires Missing(arr, nodes, k) && k != NilKey
    ensures Find(nodes, k) == |nodes| && !InRange(k, |arr|)
  {
  }

  lemma NoRoomLeft(nodes: seq<Node>, lastfree: int, oldfree: int)
    requires oldfree == -1 || UsedFrom(nodes, 0)
    ensures !HasRoom(nodes, oldfree)
  {
  }

  lemma LastFreeInside(mp: MainPosition, arr: seq<Value>, nodes: seq<Node>, rank: seq<real>, lastfree: int)
    requires WellFormed(mp, arr, nodes, rank, lastfree)
    ensures -1 <= lastfree <= |nodes|
  {
    hide Scatter;
  }

  lemma UsedAfter(nodes: seq<Node>, nodes': seq<Node>, lastfree: int, f: int, k: Key, at: nat)
    requires Inserted(nodes, nodes', k, at) && 0 <= lastfree <= |nodes|
    requires if f == -1 then UsedFrom(nodes, lastfree)
             else
               f == lastfree < |nodes| && nodes'[f].key != NilKey &&
               forall i :: f < i < |nodes| ==> nodes[i].key != NilKey
    ensures UsedFrom(nodes', lastfree)
  {
  }

  /** An insertion keeps the whole table in shape and every value in place. */
  lemma InsertedKeeps(mp: MainPosition, arr: seq<Value>, nodes: seq<Node>, nodes': seq<Node>, rank: seq<real>, k: Key,
                      at: nat)
    requires NoneInRange(nodes, |arr|) && Inserted(nodes, nodes', k, at) && !InRange(k, |arr|) && k != NilKey
    requires Scatter(mp, nodes', rank)
    ensures NoneInRange(nodes', |arr|) && SameLooks(arr, nodes, arr, nodes')
    ensures CellOf(arr, nodes', k, InNode(at)) && KeysOf(nodes') <= KeysOf(nodes) + {k}
  {
    hide Scatter;
    forall i | 0 <= i < |nodes'| ensures !InRange(nodes'[i].key, |arr|) {
      if nodes'[i].key != NilKey && nodes'[i].key != k {
        assert nodes[Find(nodes, nodes'[i].key)].key == nodes'[i].key;
      }
    }
    forall x | x in KeysOf(nodes') ensures x in KeysOf(nodes) + {k} {
      var i :| 0 <= i < |nodes'| && nodes'[i].key == x;
      if x != k {
        assert nodes[Find(nodes, x)].key == x;
      }
    }
  }

  lemma NewNodeUsed(nodes: seq<Node>, k: Key, m: nat, p: nat, f: nat)
    requires m < |nodes| && p < |nodes| && f < |nodes| && m != f && k != NilKey && nodes[m].key != NilKey
    ensures Relocate(nodes, m, p, f, k)[f].key != NilKey && ChainIn(nodes, m, f, k)[f].key != NilKey
  {
  }

  lemma ScatterBasics(mp: MainPosition, nodes: seq<Node>, rank: seq<real>)
    requires Scatter(mp, nodes, rank)
    ensures |nodes| == |rank| > 0 && Linked(nodes, rank) && Keyed(nodes)
    ensures forall i :: 0 <= i < |nodes| && nodes[i].val != Nil ==> nodes[i].key != NilKey
    ensures forall i :: 0 <= i < |nodes| && nodes[i].next != 0 ==> nodes[i].key != NilKey
  {
  }

  lemma KeyLeads(mp: MainPosition, nodes: seq<Node>, rank: seq<real>, m: nat)
    requires Scatter(mp, nodes, rank) && m < |nodes| && nodes[m].key != NilKey
    ensures |rank| == |nodes| && Leads(nodes, Main(mp, nodes, nodes[m].key), m)
  {
  }

  lemma PredecessorDiffers(nodes: seq<Node>, rank: seq<real>, p: nat, m: nat)
    requires Linked(nodes, rank) && LinksTo(nodes, p, m)
    ensures p != m && nodes[p].key != NilKey
  {
  }

  /** Values play no part in the structure. */
  lemma {:induction false} ValReaches(nodes: seq<Node>, i: nat, v: Value, a: int, b: int, s: nat)
    requires i < |nodes| && Reaches(nodes, a, b, s)
    ensures Reaches(nodes[i := nodes[i].(val := v)], a, b, s)
    decreases s
  {
    if s > 0 {
      ValReaches(nodes, i, v, Succ(nodes, a), b, s - 1);
    }
  }

  lemma StoreKeeps(mp: MainPosition, nodes: seq<Node>, rank: seq<real>, i: nat, v: Value)
    requires Scatter(mp, nodes, rank) && i < |nodes| && nodes[i].key != NilKey
    ensures Scatter(mp, nodes[i := nodes[i].(val := v)], rank)
    ensures KeysOf(nodes[i := nodes[i].(val := v)]) == KeysOf(nodes)
    ensures forall k ::
                HashLook(nodes[i := nodes[i].(val := v)], k) == if k == nodes[i].key then v else HashLook(nodes, k)
    ensures forall k :: Find(nodes[i := nodes[i].(val := v)], k) == Find(nodes, k)
  {
    hide HashLook, KeysOf;
    StoreFinds(nodes, i, v);
    StoreLinked(nodes, rank, i, v);
    StoreReachable(mp, nodes, i, v);
    StoreShape(mp, nodes, i, v);
  }

  lemma StoreShape(mp: MainPosition, nodes: seq<Node>, i: nat, v: Value)
    requires |nodes| > 0 && Keyed(nodes) && Brent(mp, nodes) && i < |nodes| && nodes[i].key != NilKey
    ensures Keyed(nodes[i := nodes[i].(val := v)]) && Brent(mp, nodes[i := nodes[i].(val := v)])
  {
    var nodes' := nodes[i := nodes[i].(val := v)];
    forall j | 0 <= j < |nodes| && nodes'[j].key != NilKey
      ensures nodes'[Main(mp, nodes', nodes'[j].key)].key != NilKey
      ensures Main(mp, nodes', nodes'[Main(mp, nodes', nodes'[j].key)].key) == Main(mp, nodes', nodes'[j].key)
    {
      assert nodes[j].key == nodes'[j].key;
      var m := Main(mp, nodes, nodes[j].key);
      assert nodes'[m].key == nodes[m].key;
    }
  }

  lemma StoreReachable(mp: MainPosition, nodes: seq<Node>, i: nat, v: Value)
    requires |nodes| > 0 && Reachable(mp, nodes) && i < |nodes|
    ensures Reachable(mp, nodes[i := nodes[i].(val := v)])
  {
    var nodes' := nodes[i := nodes[i].(val := v)];
    forall j | 0 <= j < |nodes| && nodes'[j].key != NilKey
      ensures Leads(nodes', Main(mp, nodes', nodes'[j].key), j)
    {
      var a := Main(mp, nodes, nodes[j].key);
      var s: nat :| Reaches(nodes, a, j, s);
      ValReaches(nodes, i, v, a, j, s);
    }
  }

  lemma StoreLinked(nodes: seq<Node>, rank: seq<real>, i: nat, v: Value)
    requires Linked(nodes, rank) && i < |nodes|
    ensures Linked(nodes[i := nodes[i].(val := v)], rank)
  {
    var nodes' := nodes[i := nodes[i].(val := v)];
    assert forall j :: 0 <= j < |nodes| ==> nodes'[j].next == nodes[j].next && Succ(nodes', j) == Succ(nodes, j);
  }

  lemma StoreFinds(nodes: seq<Node>, i: nat, v: Value)
    requires Keyed(nodes) && i < |nodes| && nodes[i].key != NilKey
    ensures KeysOf(nodes[i := nodes[i].(val := v)]) == KeysOf(nodes)
    ensures forall k :: Find(nodes[i := nodes[i].(val := v)], k) == Find(nodes, k)
    ensures forall k ::
                HashLook(nodes[i := nodes[i].(val := v)], k) == if k == nodes[i].key then v else HashLook(nodes, k)
  {
    var nodes' := nodes[i := nodes[i].(val := v)];
    assert forall j :: 0 <= j < |nodes| ==> nodes'[j].key == nodes[j].key;
    forall k ensures Find(nodes', k) == Find(nodes, k) {
      FindSame(nodes, nodes', k, 0);
    }
    forall k ensures HashLook(nodes', k) == if k == nodes[i].key then v else HashLook(nodes, k) {
      if k == nodes[i].key {
        FindIs(nodes, k, i);
      }
    }
    forall k ensures k in KeysOf(nodes') <==> k in KeysOf(nodes) {
      if k in KeysOf(nodes) {
        var j :| 0 <= j < |nodes| && nodes[j].key == k;
        assert nodes'[j].key == k;
      }
      if k in KeysOf(nodes') {
        var j :| 0 <= j < |nodes| && nodes'[j].key == k;
        assert nodes[j].key == k;
      }
    }
  }

  lemma {:induction false} FindSame(nodes: seq<Node>, nodes': seq<Node>, k: Key, i: nat)
    requires |nodes'| == |nodes| && i <= |nodes|
    requires forall j :: 0 <= j < |nodes| ==> nodes'[j].key == nodes[j].key
    ensures FindFrom(nodes', k, i) == FindFrom(nodes, k, i)
    decreases |nodes| - i
  {
    if i < |nodes| {
      FindSame(nodes, nodes', k, i + 1);
    }
  }
}
