/** Variables that closures share: upvalues that are stack slots first and cells of their own later. */
module LuaOpen {

  type Id = nat

  type Value = int

  /** `UpVal`: while it is open, its value lives in the stack slot `level`, and it is linked into a list. */
  datatype UpVal = Open(level: nat, next: int, refcount: nat) | Closed(value: Value, refcount: nat)

  const NONE: int := -1

  /** One cell for every variable that has ever been in a slot: what programs are supposed to see. */
  datatype Cells = Cells(value: map<nat, Value>, slot: map<nat, nat>, up: map<Id, nat>)

  // ---- the list of open upvalues ----

  /** The list from head on is the sequence of upvalues in ids. */
  predicate IsList(ups: map<Id, UpVal>, head: int, ids: seq<Id>)
    decreases |ids|
  {
    if ids == [] then head == NONE
    else head == ids[0] && ids[0] in ups && ups[ids[0]].Open? && IsList(ups, ups[ids[0]].next, ids[1..])
  }

  predicate LevelsDescend(ups: map<Id, UpVal>, ids: seq<Id>) {
    (forall i :: 0 <= i < |ids| ==> ids[i] in ups && ups[ids[i]].Open?) &&
    forall i, j :: 0 <= i < j < |ids| ==> ups[ids[i]].level > ups[ids[j]].level
  }

  /** The list holds exactly the open upvalues, with strictly descending slots: there is at most one for each slot. */
  ghost predicate ListOk(ups: map<Id, UpVal>, head: int, ids: seq<Id>) {
    IsList(ups, head, ids) && LevelsDescend(ups, ids) && forall u :: u in ups && ups[u].Open? ==> u in ids
  }

  /** Cells mean the same as slots and upvalues. */
  ghost predicate Agrees(stack: seq<Value>, ups: map<Id, UpVal>, c: Cells) {
    (forall l :: l in c.slot ==> l < |stack| && c.slot[l] in c.value && c.value[c.slot[l]] == stack[l]) &&
    (forall l, m :: l in c.slot && m in c.slot && c.slot[l] == c.slot[m] ==> l == m) &&
    c.up.Keys == ups.Keys &&
    (forall u :: u in ups ==> UpAgrees(ups, c, u)) &&
    forall u, w :: u in ups && w in ups && c.up[u] == c.up[w] ==> u == w
  }

  predicate UpAgrees(ups: map<Id, UpVal>, c: Cells, u: Id)
    requires u in ups && u in c.up
  {
    match ups[u]
    case Open(l, _, _) => l in c.slot && c.slot[l] == c.up[u]
    case Closed(v, _) => c.up[u] in c.value && c.value[c.up[u]] == v && forall l :: l in c.slot ==> c.slot[l] != c.up[u]
  }

  // ---- the list ----

  lemma {:induction false} ListFrame(ups: map<Id, UpVal>, ups': map<Id, UpVal>, head: int, ids: seq<Id>)
    requires IsList(ups, head, ids)
    requires forall i :: 0 <= i < |ids| ==>
                 ids[i] in ups' && ups'[ids[i]].Open? &&
                 (ids[i] in ups && ups[ids[i]].Open? ==> ups'[ids[i]].next == ups[ids[i]].next)
    ensures IsList(ups', head, ids)
    decreases |ids|
  {
    if ids != [] { ListFrame(ups, ups', ups[ids[0]].next, ids[1..]); }
  }

  /** The list from its i-th element on. */
  lemma {:induction false} ListFrom(ups: map<Id, UpVal>, head: int, ids: seq<Id>, i: nat)
    requires IsList(ups, head, ids) && i <= |ids|
    ensures IsList(ups, if i < |ids| then ids[i] else NONE, ids[i..])
    ensures i > 0 ==> ids[i - 1] in ups && ups[ids[i - 1]].Open?
    ensures i > 0 ==> ups[ids[i - 1]].next == if i < |ids| then ids[i] else NONE
    decreases |ids|
  {
    if i > 0 {
      ListFrom(ups, ups[ids[0]].next, ids[1..], i - 1);
      assert ids[1..][i - 1..] == ids[i..];
      if i == 1 && |ids| > 1 { assert ids[1..][0] == ids[1]; }
    }
  }

  predicate Unique(ids: seq<Id>) { forall i, j :: 0 <= i < j < |ids| ==> ids[i] != ids[j] }

  /** A new upvalue is linked in at i. */
  lemma {:induction false} ListInsert(ups: map<Id, UpVal>, head: int, ids: seq<Id>, i: nat, u: Id, added: UpVal)
    requires IsList(ups, head, ids) && i <= |ids| && u !in ups && added.Open? && Unique(ids)
    requires added.next == if i < |ids| then ids[i] else NONE
    ensures i > 0 ==> ids[i - 1] in ups && ups[ids[i - 1]].Open?
    ensures IsList(Linked(ups, ids, i, u)[u := added], if i == 0 then u else head, ids[..i] + [u] + ids[i..])
    decreases i
  {
    var all := ids[..i] + [u] + ids[i..];
    if i == 0 {
      assert all[1..] == ids;
      AllOpen(ups, head, ids);
      ListFrame(ups, ups[u := added], head, ids);
    } else {
      var rest := ids[1..];
      ListInsert(ups, ups[ids[0]].next, rest, i - 1, u, added);
      assert all[1..] == rest[..i - 1] + [u] + rest[i - 1..];
      ListInsertFrame(ups, ids, i, u, added, all[1..]);
    }
  }

  /** The change behind the first element, seen from there. */
  lemma ListInsertFrame(ups: map<Id, UpVal>, ids: seq<Id>, i: nat, u: Id, added: UpVal, tail: seq<Id>)
    requires 0 < i <= |ids| && u !in ups && added.Open? && Unique(ids)
    requires tail == ids[1..][..i - 1] + [u] + ids[1..][i - 1..]
    requires ids[0] in ups && ups[ids[0]].Open? && ids[i - 1] in ups && ups[ids[i - 1]].Open?
    requires i > 1 ==> ids[1..][i - 2] == ids[i - 1]
    requires IsList(Linked(ups, ids[1..], i - 1, u)[u := added], if i == 1 then u else ups[ids[0]].next, tail)
    ensures IsList(Linked(ups, ids, i, u)[u := added], if i == 1 then u else ups[ids[0]].next, tail)
  {
    var x, y := Linked(ups, ids[1..], i - 1, u)[u := added], Linked(ups, ids, i, u)[u := added];
    AllOpen(x, if i == 1 then u else ups[ids[0]].next, tail);
    forall k | 0 <= k < |tail| ensures tail[k] != ids[0] {}
    ListFrame(x, y, if i == 1 then u else ups[ids[0]].next, tail);
  }

  lemma {:induction false} AllOpen(ups: map<Id, UpVal>, head: int, ids: seq<Id>)
    requires IsList(ups, head, ids)
    ensures forall k :: 0 <= k < |ids| ==> ids[k] in ups && ups[ids[k]].Open?
    decreases |ids|
  {
    if ids != [] {
      AllOpen(ups, ups[ids[0]].next, ids[1..]);
      forall k | 0 <= k < |ids|
        ensures ids[k] in ups && ups[ids[k]].Open?
      {
        if k > 0 { assert ids[1..][k - 1] == ids[k]; }
      }
    }
  }

  /** The element before i points to u. */
  function Linked(ups: map<Id, UpVal>, ids: seq<Id>, i: nat, u: Id): map<Id, UpVal>
    requires i > 0 ==> i <= |ids| && ids[i - 1] in ups && ups[ids[i - 1]].Open?
  {
    if i == 0 then ups else ups[ids[i - 1] := ups[ids[i - 1]].(next := u)]
  }

  lemma NoTwice(ups: map<Id, UpVal>, ids: seq<Id>)
    requires LevelsDescend(ups, ids)
    ensures Unique(ids)
  {
    forall i, j | 0 <= i < j < |ids| ensures ids[i] != ids[j] { assert ups[ids[i]].level > ups[ids[j]].level; }
  }

  ghost predicate Consistent(stack: seq<Value>, ups: map<Id, UpVal>, head: int, ids: seq<Id>, c: Cells, nextId: Id) {
    ListOk(ups, head, ids) && Agrees(stack, ups, c) && forall u :: u in ups ==> u < nextId
  }

  class Thread {
    var stack: seq<Value>
    var ups: map<Id, UpVal>
    var openupval: int
    var nextId: Id
    ghost var ids: seq<Id>
    ghost var cells: Cells

    ghost predicate Valid()
      reads this
    {
      Consistent(stack, ups, openupval, ids, cells, nextId)
    }

    constructor (size: nat)
      ensures Valid() && |stack| == size && ups == map[] && cells == Cells(map[], map[], map[])
    {
      stack := seq(size, i => 0);
      ups, openupval, nextId := map[], NONE, 0;
      ids, cells := [], Cells(map[], map[], map[]);
    }

    // ---- variables ----

    /** A variable comes into being in a slot that no upvalue refers to: earlier ones have been closed. */
    method Declare(l: nat, v: Value, ghost cell: nat)
      requires Valid() && l < |stack| && cell !in cells.value
      requires forall u :: u in ups && ups[u].Open? ==> ups[u].level != l
      requires forall m :: m in cells.slot ==> cells.slot[m] != cell
      requires forall u :: u in cells.up ==> cells.up[u] != cell
      modifies this`stack, this`cells
      ensures Valid() && stack == old(stack)[l := v]
      ensures cells == old(cells).(value := old(cells).value[cell := v], slot := old(cells).slot[l := cell])
    {
      hide IsList, LevelsDescend, ListOk, Agrees, UpAgrees;
      ghost var s, c := stack, cells;
      stack := stack[l := v];
      cells := cells.(value := cells.value[cell := v], slot := cells.slot[l := cell]);
      Declared(s, ups, c, l, v, cell, stack, cells);
    }

    method GetLocal(l: nat) returns (v: Value)
      requires Valid() && l in cells.slot
      ensures cells.slot[l] in cells.value && v == cells.value[cells.slot[l]]
    {
      hide IsList, LevelsDescend, ListOk;
      return stack[l];
    }

    method SetLocal(l: nat, v: Value)
      requires Valid() && l in cells.slot
      modifies this`stack, this`cells
      ensures Valid() && cells == old(cells).(value := old(cells).value[old(cells).slot[l] := v])
    {
      hide IsList, LevelsDescend, ListOk, Agrees, UpAgrees;
      ghost var s, c := stack, cells;
      SlotInStack(s, ups, c, l);
      stack := stack[l := v];
      cells := cells.(value := cells.value[cells.slot[l] := v]);
      SlotSet(s, ups, c, l, v, stack, cells);
    }

    /** `GETUPVAL`: the value is in the slot or in the upvalue itself. */
    method GetUpvalue(u: Id) returns (v: Value)
      requires Valid() && u in ups
      ensures u in cells.up && cells.up[u] in cells.value && v == cells.value[cells.up[u]]
    {
      hide IsList, LevelsDescend, ListOk, Agrees, UpAgrees;
      UpInStack(stack, ups, cells, u);
      match ups[u]
      case Open(l, _, _) => return stack[l];
      case Closed(x, _) => return x;
    }

    /** `SETUPVAL`. */
    method SetUpvalue(u: Id, v: Value)
      requires Valid() && u in ups
      modifies this`stack, this`ups, this`cells
      ensures Valid() && u in old(cells).up && cells == old(cells).(value := old(cells).value[old(cells).up[u] := v])
    {
      hide IsList, LevelsDescend, ListOk, Agrees, UpAgrees;
      ghost var s, x, c := stack, ups, cells;
      UpInStack(s, x, c, u);
      cells := cells.(value := cells.value[cells.up[u] := v]);
      if ups[u].Open? {
        stack := stack[ups[u].level := v];
        SlotSet(s, x, c, x[u].level, v, stack, cells);
      } else {
        ups := ups[u := Closed(v, ups[u].refcount)];
        SameList(x, ups, openupval, ids);
        UpSet(s, x, c, u, v, ups, cells);
      }
    }

    // ---- open upvalues ----

    /** `luaF_findupval`: the upvalue of a slot, which is shared if there is one already. */
    method FindUpval(level: nat) returns (u: Id)
      requires Valid() && level in cells.slot
      modifies this
      ensures Valid() && stack == old(stack) && u in ups && ups[u].Open? && ups[u].level == level
      ensures cells == old(cells).(up := old(cells).up[u := old(cells).slot[level]])
      ensures u in old(ups) <==> exists w :: w in old(ups) && old(ups)[w].Open? && old(ups)[w].level == level
      ensures forall w :: w in old(ups) ==> w in ups && SameUp(old(ups)[w], ups[w])
    {
      hide IsList, LevelsDescend, Agrees, ListOk, UpAgrees;
      var pp, p := NONE, openupval;
      ghost var i := 0;
      At(ups, openupval, ids, 0);
      while p != NONE && ups[p].level >= level
        invariant Valid() && unchanged(this)
        invariant 0 <= i <= |ids| && (p == NONE <==> i == |ids|)
        invariant p != NONE ==> p == ids[i] && p in ups && ups[p].Open?
        invariant if i == 0 then pp == NONE && p == openupval else pp == ids[i - 1] && pp in ups && ups[pp].Open?
        invariant Above(ups, ids, i, level)
        decreases |ids| - i
      {
        if ups[p].level == level {
          Shared(stack, ups, cells, p, level);
          return p;
        }
        At(ups, openupval, ids, i + 1);
        AboveMore(ups, ids, i, level);
        pp, p := p, ups[p].next;
        i := i + 1;
      }
      At(ups, openupval, ids, i);
      u := nextId;
      nextId := nextId + 1;
      Insert(stack, ups, openupval, ids, cells, i, u, level, p);
      if pp == NONE {
        openupval := u;
      } else {
        ups := ups[pp := ups[pp].(next := u)];
      }
      ups := ups[u := Open(level, p, 0)];
      ids := ids[..i] + [u] + ids[i..];
      cells := cells.(up := cells.up[u := cells.slot[level]]);
    }

    /** A closure takes a reference (`pushclosure`). */
    method Retain(u: Id)
      requires Valid() && u in ups
      modifies this`ups
      ensures Valid() && ups == old(ups)[u := Counted(old(ups)[u], old(ups)[u].refcount + 1)]
    {
      hide IsList, LevelsDescend, ListOk, Agrees, UpAgrees;
      ghost var x := ups;
      ups := ups[u := Counted(ups[u], ups[u].refcount + 1)];
      Recounted(stack, x, openupval, ids, cells, nextId, u, x[u].refcount + 1);
    }

    /** `luaC_upvdeccount`: a closed upvalue without references is freed; an open one waits for `luaF_close`. */
    method Release(u: Id)
      requires Valid() && u in ups && ups[u].refcount > 0
      modifies this`ups, this`cells
      ensures Valid() && var x := Counted(old(ups)[u], old(ups)[u].refcount - 1);
        if x.refcount == 0 && x.Closed? then ups == old(ups) - {u} && cells == old(cells).(up := old(cells).up - {u})
        else ups == old(ups)[u := x] && cells == old(cells)
    {
      hide IsList, LevelsDescend, ListOk, Agrees, UpAgrees;
      ghost var x := ups;
      var n := ups[u].refcount - 1;
      ups := ups[u := Counted(ups[u], n)];
      Recounted(stack, x, openupval, ids, cells, nextId, u, n);
      if n == 0 && ups[u].Closed? {
        ghost var y := ups;
        ups := ups - {u};
        cells := cells.(up := cells.up - {u});
        Freed(stack, y, openupval, ids, old(cells), nextId, u);
        assert y - {u} == x - {u};
      }
    }

    /** `luaF_close`: upvalues of the slots from level on keep their cells, or are freed if nothing refers to them. The
        variables in those slots are gone. */
    method Close(level: nat)
      requires Valid()
      modifies this
      ensures Valid() && stack == old(stack) && cells.value == old(cells).value
      ensures cells.slot == map l | l in old(cells).slot && l < level :: old(cells).slot[l]
      ensures forall u :: u in old(ups) ==> AfterClose(old(stack), old(ups), level, ups, u)
      ensures forall u :: u in ups ==>
                  u in old(ups) && u in cells.up && u in old(cells).up && cells.up[u] == old(cells).up[u]
    {
      hide IsList, LevelsDescend, ListOk, Agrees, UpAgrees, SlotsLeft, MidClose, SameCells;
      ghost var x, c := ups, cells;
      CloseStarts(stack, ups, cells, level, openupval, ids, nextId);
      while openupval != NONE && ups[openupval].level >= level
        invariant Valid() && stack == old(stack) && nextId == old(nextId)
        invariant openupval != NONE ==> openupval in ups && ups[openupval].Open?
        invariant MidClose(stack, x, level, ups) && SlotsLeft(c, cells, level) && SameCells(c, cells, ups)
        decreases |ids|
      {
        var uv := openupval;
        ghost var ups0, ids0, c0 := ups, ids, cells;
        First(ups, openupval, ids0, stack, cells, nextId);
        var slot := ups[uv].level;
        openupval := ups[uv].next;
        ids := ids[1..];
        cells := cells.(slot := Without(cells.slot, slot));
        if ups[uv].refcount == 0 {
          ups := ups - {uv};
          cells := cells.(up := cells.up - {uv});
        } else {
          ups := ups[uv := Closed(stack[slot], ups[uv].refcount)];
        }
        ClosedOne(stack, ups0, uv, ids0, c0, nextId, ups, ids, cells);
        CloseGoesOn(stack, x, level, c, ups0, c0, uv, ups, cells);
        if openupval != NONE { First(ups, openupval, ids, stack, cells, nextId); }
      }
      ghost var c0 := cells;
      cells := cells.(slot := map l | l in cells.slot && l < level :: cells.slot[l]);
      CloseEnds(stack, x, level, c, ups, openupval, ids, c0, cells, nextId);
    }
  }

  // ---- reading and writing ----

  lemma SlotInStack(stack: seq<Value>, ups: map<Id, UpVal>, c: Cells, l: nat)
    requires Agrees(stack, ups, c) && l in c.slot
    ensures l < |stack| && c.slot[l] in c.value
  {
  }

  /** An upvalue is a slot, or has its own value; either way it is its cell. */
  lemma UpInStack(stack: seq<Value>, ups: map<Id, UpVal>, c: Cells, u: Id)
    requires Agrees(stack, ups, c) && u in ups
    ensures u in c.up && c.up[u] in c.value
    ensures if ups[u].Open? then
              ups[u].level < |stack| && ups[u].level in c.slot && c.slot[ups[u].level] == c.up[u] &&
              c.value[c.up[u]] == stack[ups[u].level]
            else c.value[c.up[u]] == ups[u].value
  {
    assert UpAgrees(ups, c, u);
  }

  lemma Declared(s: seq<Value>, ups: map<Id, UpVal>, c: Cells, l: nat, v: Value, cell: nat, s': seq<Value>, c': Cells)
    requires Agrees(s, ups, c) && l < |s| && s' == s[l := v]
    requires c' == c.(value := c.value[cell := v], slot := c.slot[l := cell])
    requires cell !in c.value && (forall u :: u in ups && ups[u].Open? ==> ups[u].level != l)
    requires (forall m :: m in c.slot ==> c.slot[m] != cell) && forall u :: u in c.up ==> c.up[u] != cell
    ensures Agrees(s', ups, c')
  {
    forall w | w in ups ensures UpAgrees(ups, c', w) { assert UpAgrees(ups, c, w); }
  }

  lemma SlotSet(s: seq<Value>, ups: map<Id, UpVal>, c: Cells, l: nat, v: Value, s': seq<Value>, c': Cells)
    requires Agrees(s, ups, c) && l in c.slot && l < |s| && s' == s[l := v]
    requires c' == c.(value := c.value[c.slot[l] := v])
    ensures Agrees(s', ups, c')
  {
    forall w | w in ups ensures UpAgrees(ups, c', w) { assert UpAgrees(ups, c, w); }
  }

  lemma UpSet(s: seq<Value>, ups: map<Id, UpVal>, c: Cells, u: Id, v: Value, ups': map<Id, UpVal>, c': Cells)
    requires Agrees(s, ups, c) && u in ups && u in c.up && ups[u].Closed?
    requires ups' == ups[u := Closed(v, ups[u].refcount)]
    requires c' == c.(value := c.value[c.up[u] := v])
    ensures Agrees(s, ups', c')
  {
    assert UpAgrees(ups, c, u);
    forall w | w in ups ensures UpAgrees(ups', c', w) { assert UpAgrees(ups, c, w); }
  }

  // ---- counting references ----

  function Counted(x: UpVal, n: nat): UpVal { x.(refcount := n) }

  /** The list does not care for closed upvalues, nor for counts. */
  lemma SameList(ups: map<Id, UpVal>, ups': map<Id, UpVal>, head: int, ids: seq<Id>)
    requires ListOk(ups, head, ids) && (forall u :: u in ups' ==> u in ups && (ups'[u].Open? ==> ups[u].Open?))
    requires forall u :: u in ups && ups[u].Open? ==>
                 u in ups' && ups'[u].Open? && ups'[u].next == ups[u].next && ups'[u].level == ups[u].level
    ensures ListOk(ups', head, ids)
  {
    hide IsList;
    ListFrame(ups, ups', head, ids);
  }

  lemma Recounted(stack: seq<Value>, ups: map<Id, UpVal>, head: int, ids: seq<Id>, c: Cells, nextId: Id, u: Id, n: nat)
    requires Consistent(stack, ups, head, ids, c, nextId) && u in ups
    ensures Consistent(stack, ups[u := Counted(ups[u], n)], head, ids, c, nextId)
  {
    hide ListOk;
    var ups' := ups[u := Counted(ups[u], n)];
    SameList(ups, ups', head, ids);
    forall w | w in ups' ensures UpAgrees(ups', c, w) { assert UpAgrees(ups, c, w); }
  }

  lemma Freed(stack: seq<Value>, ups: map<Id, UpVal>, head: int, ids: seq<Id>, c: Cells, nextId: Id, u: Id)
    requires Consistent(stack, ups, head, ids, c, nextId) && u in ups && ups[u].Closed?
    ensures Consistent(stack, ups - {u}, head, ids, c.(up := c.up - {u}), nextId)
  {
    hide ListOk;
    var ups', c' := ups - {u}, c.(up := c.up - {u});
    SameList(ups, ups', head, ids);
    forall w | w in ups' ensures UpAgrees(ups', c', w) { assert UpAgrees(ups, c, w); }
  }

  // ---- finding and inserting ----

  /** The element i of the list. */
  lemma At(ups: map<Id, UpVal>, head: int, ids: seq<Id>, i: nat)
    requires ListOk(ups, head, ids) && i <= |ids|
    ensures i < |ids| ==> ids[i] in ups && ups[ids[i]].Open?
    ensures i == 0 ==> head == if ids == [] then NONE else ids[0]
    ensures i > 0 ==> ids[i - 1] in ups && ups[ids[i - 1]].Open?
    ensures i > 0 ==> ups[ids[i - 1]].next == if i < |ids| then ids[i] else NONE
  {
    hide IsList;
    ListFrom(ups, head, ids, i);
    ListFrom(ups, head, ids, 0);
    assert ids[0..] == ids;
    if i == 0 { EmptyHead(ups, head, ids); }
  }

  lemma EmptyHead(ups: map<Id, UpVal>, head: int, ids: seq<Id>)
    requires IsList(ups, head, ids)
    ensures head == if ids == [] then NONE else ids[0]
  {
  }

  /** The slots before the place are higher. */
  predicate Above(ups: map<Id, UpVal>, ids: seq<Id>, i: nat, level: nat) {
    i <= |ids| && forall j :: 0 <= j < i ==> ids[j] in ups && ups[ids[j]].Open? && ups[ids[j]].level > level
  }

  lemma AboveMore(ups: map<Id, UpVal>, ids: seq<Id>, i: nat, level: nat)
    requires Above(ups, ids, i, level) && i < |ids| && ids[i] in ups && ups[ids[i]].Open? && ups[ids[i]].level > level
    ensures Above(ups, ids, i + 1, level)
  {
  }

  lemma Shared(stack: seq<Value>, ups: map<Id, UpVal>, c: Cells, u: Id, level: nat)
    requires Agrees(stack, ups, c) && u in ups && ups[u].Open? && ups[u].level == level && level in c.slot
    ensures c == c.(up := c.up[u := c.slot[level]])
    ensures forall w :: w in ups ==> SameUp(ups[w], ups[w])
  {
    assert UpAgrees(ups, c, u);
    assert c.up == c.up[u := c.slot[level]];
  }

  /** Everything about a new upvalue. */
  lemma Insert(stack: seq<Value>, ups: map<Id, UpVal>, head: int, ids: seq<Id>, c: Cells, i: nat, u: Id, level: nat,
               p: int)
    requires Consistent(stack, ups, head, ids, c, u) && i <= |ids| && level in c.slot && Above(ups, ids, i, level)
    requires p == (if i < |ids| then ids[i] else NONE)
    requires p != NONE ==> p in ups && ups[p].Open? && ups[p].level < level
    ensures i > 0 ==> ids[i - 1] in ups && ups[ids[i - 1]].Open?
    ensures var ups' := Linked(ups, ids, i, u)[u := Open(level, p, 0)];
      Consistent(stack, ups', if i == 0 then u else head, ids[..i] + [u] + ids[i..],
               c.(up := c.up[u := c.slot[level]]), u + 1) &&
      u !in ups && (forall w :: w in ups && ups[w].Open? ==> ups[w].level != level) &&
      forall w :: w in ups ==> w in ups' && SameUp(ups[w], ups'[w])
  {
    hide IsList, LevelsDescend, Agrees, UpAgrees, Linked, SameUp;
    if i > 0 { At(ups, head, ids, i); }
    Below(ups, ids, i, level);
    NoTwice(ups, ids);
    ListInsert(ups, head, ids, i, u, Open(level, p, 0));
    var ups' := Linked(ups, ids, i, u)[u := Open(level, p, 0)];
    var ids' := ids[..i] + [u] + ids[i..];
    NoneAt(ups, ids, i, level);
    InsertedLevels(ups, ids, i, u, level, p);
    InsertedAll(ups, ids, i, u, level, p);
    InsertedSame(ups, ids, i, u, level, p);
    InsertedAgrees(stack, ups, c, u, level, p, ups', c.(up := c.up[u := c.slot[level]]));
  }

  /** Behind the place that has been found, all slots are lower. */
  lemma Below(ups: map<Id, UpVal>, ids: seq<Id>, i: nat, level: nat)
    requires LevelsDescend(ups, ids) && i <= |ids|
    requires i < |ids| ==> ids[i] in ups && ups[ids[i]].Open? && ups[ids[i]].level < level
    ensures forall j :: i <= j < |ids| ==> ids[j] in ups && ups[ids[j]].Open? && ups[ids[j]].level < level
  {
    forall j | i <= j < |ids| ensures ids[j] in ups && ups[ids[j]].Open? && ups[ids[j]].level < level {
      if j > i { assert ups[ids[i]].level > ups[ids[j]].level; }
    }
  }

  /** What stands around the place. */
  predicate Around(ups: map<Id, UpVal>, ids: seq<Id>, i: nat, u: Id, level: nat) {
    i <= |ids| && u !in ups && LevelsDescend(ups, ids) && Above(ups, ids, i, level) &&
    forall j :: i <= j < |ids| ==> ids[j] in ups && ups[ids[j]].Open? && ups[ids[j]].level < level
  }

  lemma NoneAt(ups: map<Id, UpVal>, ids: seq<Id>, i: nat, level: nat)
    requires Above(ups, ids, i, level) && (forall w :: w in ups && ups[w].Open? ==> w in ids)
    requires forall j :: i <= j < |ids| ==> ids[j] in ups && ups[ids[j]].Open? && ups[ids[j]].level < level
    ensures forall w :: w in ups && ups[w].Open? ==> ups[w].level != level
  {
    forall w | w in ups && ups[w].Open? ensures ups[w].level != level {
      var j :| 0 <= j < |ids| && ids[j] == w;
    }
  }

  lemma InsertedSame(ups: map<Id, UpVal>, ids: seq<Id>, i: nat, u: Id, level: nat, p: int)
    requires Around(ups, ids, i, u, level)
    ensures var ups' := Linked(ups, ids, i, u)[u := Open(level, p, 0)];
      ups'.Keys == ups.Keys + {u} && ups'[u] == Open(level, p, 0) &&
      forall w :: w in ups ==> w in ups' && SameUp(ups[w], ups'[w])
  {
    hide LevelsDescend;
    var ups' := Linked(ups, ids, i, u)[u := Open(level, p, 0)];
    forall w | w in ups ensures w in ups' && SameUp(ups[w], ups'[w]) {}
  }

  lemma InsertedAll(ups: map<Id, UpVal>, ids: seq<Id>, i: nat, u: Id, level: nat, p: int)
    requires Around(ups, ids, i, u, level) && forall w :: w in ups && ups[w].Open? ==> w in ids
    ensures var ups' := Linked(ups, ids, i, u)[u := Open(level, p, 0)];
      forall w :: w in ups' && ups'[w].Open? ==> w in ids[..i] + [u] + ids[i..]
  {
    hide LevelsDescend;
    var ups', ids' := Linked(ups, ids, i, u)[u := Open(level, p, 0)], ids[..i] + [u] + ids[i..];
    InsertedSame(ups, ids, i, u, level, p);
    forall w | w in ups' && ups'[w].Open? ensures w in ids' {
      if w == u {
        assert ids'[i] == u;
      } else {
        assert SameUp(ups[w], ups'[w]);
        var j :| 0 <= j < |ids| && ids[j] == w;
        assert ids'[if j < i then j else j + 1] == w;
      }
    }
  }

  function Place(ids: seq<Id>, i: nat, u: Id, j: nat): Id
    requires i <= |ids| && j <= |ids|
  {
    if j < i then ids[j] else if j == i then u else ids[j - 1]
  }

  lemma InsertedLevels(ups: map<Id, UpVal>, ids: seq<Id>, i: nat, u: Id, level: nat, p: int)
    requires Around(ups, ids, i, u, level)
    ensures LevelsDescend(Linked(ups, ids, i, u)[u := Open(level, p, 0)], ids[..i] + [u] + ids[i..])
  {
    var ups', ids' := Linked(ups, ids, i, u)[u := Open(level, p, 0)], ids[..i] + [u] + ids[i..];
    forall j: nat | j <= |ids| ensures ids'[j] == Place(ids, i, u, j) {}
    forall j: nat | j < |ids| ensures ids[j] in ups' && ups'[ids[j]].Open? && ups'[ids[j]].level == ups[ids[j]].level {}
  }

  lemma InsertedAgrees(stack: seq<Value>, ups: map<Id, UpVal>, c: Cells, u: Id, level: nat, p: int,
                       ups': map<Id, UpVal>, c': Cells)
    requires Agrees(stack, ups, c) && u !in ups && level in c.slot
    requires forall w :: w in ups && ups[w].Open? ==> ups[w].level != level
    requires ups'.Keys == ups.Keys + {u} && ups'[u] == Open(level, p, 0)
    requires forall w :: w in ups ==> SameUp(ups[w], ups'[w])
    requires c' == c.(up := c.up[u := c.slot[level]])
    ensures Agrees(stack, ups', c')
  {
    forall w | w in ups'
      ensures UpAgrees(ups', c', w)
    {
      if w != u { assert UpAgrees(ups, c, w) && SameUp(ups[w], ups'[w]); }
    }
    forall w | w in ups ensures c.up[w] != c.slot[level] { assert UpAgrees(ups, c, w); }
  }

  /** But for its place in the list. */
  predicate SameUp(x: UpVal, y: UpVal) { if x.Open? && y.Open? then y == x.(next := y.next) else y == x }

  // ---- closing ----

  function Without(m: map<nat, nat>, l: nat): map<nat, nat> { map k | k in m && k != l :: m[k] }

  /** What closing makes of an upvalue. */
  predicate AfterClose(stack: seq<Value>, ups: map<Id, UpVal>, level: nat, ups': map<Id, UpVal>, u: Id)
    requires u in ups
  {
    var x := ups[u];
    if x.Open? && x.level >= level then
      if x.refcount == 0 then u !in ups'
        else u in ups' && x.level < |stack| && ups'[u] == Closed(stack[x.level], x.refcount)
    else u in ups' && ups'[u] == x
  }

  /** On the way, it may still be as it was. */
  predicate MidAt(stack: seq<Value>, ups: map<Id, UpVal>, level: nat, ups': map<Id, UpVal>, u: Id)
    requires u in ups
  {
    AfterClose(stack, ups, level, ups', u) || (u in ups' && ups'[u] == ups[u])
  }

  ghost predicate MidClose(stack: seq<Value>, ups: map<Id, UpVal>, level: nat, ups': map<Id, UpVal>) {
    (forall u :: u in ups ==> MidAt(stack, ups, level, ups', u)) && forall u :: u in ups' ==> u in ups
  }

  ghost predicate SlotsLeft(c: Cells, c': Cells, level: nat) {
    (forall l :: l in c'.slot ==> l in c.slot && c'.slot[l] == c.slot[l]) &&
    forall l :: l in c.slot && l < level ==> l in c'.slot
  }

  ghost predicate SameCells(c: Cells, c': Cells, ups': map<Id, UpVal>) {
    c'.value == c.value && forall u :: u in ups' ==> u in c.up && u in c'.up && c'.up[u] == c.up[u]
  }

  lemma CloseStarts(stack: seq<Value>, ups: map<Id, UpVal>, c: Cells, level: nat, head: int, ids: seq<Id>, nextId: Id)
    requires Consistent(stack, ups, head, ids, c, nextId)
    ensures MidClose(stack, ups, level, ups) && SlotsLeft(c, c, level) && SameCells(c, c, ups)
    ensures head != NONE ==> head in ups && ups[head].Open?
  {
    hide IsList, LevelsDescend, UpAgrees;
    At(ups, head, ids, 0);
  }

  lemma First(ups: map<Id, UpVal>, head: int, ids: seq<Id>, stack: seq<Value>, c: Cells, nextId: Id)
    requires Consistent(stack, ups, head, ids, c, nextId) && head != NONE
    ensures ids != [] && head == ids[0] && ids[0] in ups && ups[ids[0]].Open? && ups[ids[0]].level < |stack|
  {
    hide LevelsDescend, UpAgrees;
    UpInStack(stack, ups, c, head);
  }

  /** The first upvalue of the list is closed. */
  lemma ClosedOne(stack: seq<Value>, ups: map<Id, UpVal>, uv: Id, ids: seq<Id>, c: Cells, nextId: Id,
                  ups': map<Id, UpVal>, ids': seq<Id>, c': Cells)
    requires Consistent(stack, ups, uv, ids, c, nextId) && ids != [] && ids[0] == uv && uv in ups && ups[uv].Open?
    requires ups[uv].level < |stack| && ids' == ids[1..]
    requires c' == Cells(c.value, Without(c.slot, ups[uv].level), if ups[uv].refcount == 0 then c.up - {uv} else c.up)
    requires ups' == if ups[uv].refcount == 0 then ups - {uv}
             else ups[uv := Closed(stack[ups[uv].level], ups[uv].refcount)]
    ensures Consistent(stack, ups', ups[uv].next, ids', c', nextId)
  {
    hide IsList, LevelsDescend, Agrees, UpAgrees;
    ClosedList(ups, ids, uv, ups');
    OneForEach(ups, ids, uv);
    ClosedAgrees(stack, ups, c, uv, ups', c');
  }

  lemma OneForEach(ups: map<Id, UpVal>, ids: seq<Id>, uv: Id)
    requires LevelsDescend(ups, ids) && (forall w :: w in ups && ups[w].Open? ==> w in ids) && ids != [] && ids[0] == uv
    requires uv in ups && ups[uv].Open?
    ensures forall w :: w in ups && w != uv && ups[w].Open? ==> ups[w].level < ups[uv].level
  {
    forall w | w in ups && w != uv && ups[w].Open? ensures ups[w].level < ups[uv].level {
      var j :| 0 <= j < |ids| && ids[j] == w;
      assert ups[ids[0]].level > ups[ids[j]].level;
    }
  }

  lemma ClosedList(ups: map<Id, UpVal>, ids: seq<Id>, uv: Id, ups': map<Id, UpVal>)
    requires ListOk(ups, uv, ids) && ids != [] && ids[0] == uv && uv in ups && ups[uv].Open?
    requires forall w :: w in ups && w != uv ==> w in ups' && ups'[w] == ups[w]
    requires forall w :: w in ups' ==> w in ups && (w == uv ==> ups'[w].Closed?)
    ensures ListOk(ups', ups[uv].next, ids[1..])
  {
    NoTwice(ups, ids);
    ListFrame(ups, ups', ups[uv].next, ids[1..]);
    forall w | w in ups' && ups'[w].Open? ensures w in ids[1..] {
      var j :| 0 <= j < |ids| && ids[j] == w;
      assert ids[1..][j - 1] == w;
    }
  }

  lemma ClosedAgrees(stack: seq<Value>, ups: map<Id, UpVal>, c: Cells, uv: Id, ups': map<Id, UpVal>, c': Cells)
    requires Agrees(stack, ups, c) && uv in ups && ups[uv].Open? && ups[uv].level < |stack|
    requires c' == Cells(c.value, Without(c.slot, ups[uv].level), if ups[uv].refcount == 0 then c.up - {uv} else c.up)
    requires ups' == if ups[uv].refcount == 0 then ups - {uv}
             else ups[uv := Closed(stack[ups[uv].level], ups[uv].refcount)]
    requires forall w :: w in ups && w != uv && ups[w].Open? ==> ups[w].level < ups[uv].level
    ensures Agrees(stack, ups', c')
  {
    assert UpAgrees(ups, c, uv);
    forall w | w in ups' ensures UpAgrees(ups', c', w) { assert UpAgrees(ups, c, w); }
  }

  lemma CloseGoesOn(stack: seq<Value>, x: map<Id, UpVal>, level: nat, c: Cells, ups: map<Id, UpVal>, c1: Cells, uv: Id,
                    ups': map<Id, UpVal>, c': Cells)
    requires MidClose(stack, x, level, ups) && SlotsLeft(c, c1, level) && SameCells(c, c1, ups)
    requires uv in ups && ups[uv].Open? && ups[uv].level >= level && ups[uv].level < |stack|
    requires c' == Cells(c1.value, Without(c1.slot, ups[uv].level),
                         if ups[uv].refcount == 0 then c1.up - {uv} else c1.up)
    requires ups' == if ups[uv].refcount == 0 then ups - {uv}
             else ups[uv := Closed(stack[ups[uv].level], ups[uv].refcount)]
    ensures MidClose(stack, x, level, ups') && SlotsLeft(c, c', level) && SameCells(c, c', ups')
  {
    forall u | u in x ensures MidAt(stack, x, level, ups', u) { assert MidAt(stack, x, level, ups, u); }
  }

  lemma CloseEnds(stack: seq<Value>, x: map<Id, UpVal>, level: nat, c: Cells, ups: map<Id, UpVal>, head: int,
                  ids: seq<Id>, c1: Cells, c': Cells, nextId: Id)
    requires Consistent(stack, ups, head, ids, c1, nextId)
    requires head != NONE ==> head in ups && ups[head].Open? && ups[head].level < level
    requires MidClose(stack, x, level, ups) && SlotsLeft(c, c1, level) && SameCells(c, c1, ups)
    requires c' == c1.(slot := map l | l in c1.slot && l < level :: c1.slot[l])
    ensures Consistent(stack, ups, head, ids, c', nextId)
    ensures c'.value == c.value && c'.slot == map l | l in c.slot && l < level :: c.slot[l]
    ensures forall u :: u in x ==> AfterClose(stack, x, level, ups, u)
    ensures forall u :: u in ups ==> u in x && u in c'.up && u in c.up && c'.up[u] == c.up[u]
  {
    hide IsList, LevelsDescend;
    AllLower(ups, head, ids, level);
    forall w | w in ups ensures UpAgrees(ups, c', w) { assert UpAgrees(ups, c1, w); }
    forall u | u in x ensures AfterClose(stack, x, level, ups, u) { assert MidAt(stack, x, level, ups, u); }
  }

  lemma AllLower(ups: map<Id, UpVal>, head: int, ids: seq<Id>, level: nat)
    requires ListOk(ups, head, ids) && (head != NONE ==> head in ups && ups[head].Open? && ups[head].level < level)
    ensures forall u :: u in ups && ups[u].Open? ==> ups[u].level < level
  {
    forall u | u in ups && ups[u].Open? ensures ups[u].level < level {
      var j :| 0 <= j < |ids| && ids[j] == u;
      EmptyHead(ups, head, ids);
      if j > 0 { assert ups[ids[0]].level > ups[ids[j]].level; }
    }
  }
}
