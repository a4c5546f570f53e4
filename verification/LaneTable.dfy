/**
 The table of per-session lane locks (`g_lane_sess` in cognitive_os_agent.c).

 `Table` and the three functions on it say what one critical section under
 `g_lane_sess_mtx` does to the table.  `LaneList` is the linked list the code
 really keeps; its methods are proved against those functions.
 */
module LaneTable {
  import opened Options

  const DEFAULT_SESSION := "default"

  /** The empty session id stands for the default session. */
  function Key(session: string): string {
    if session == "" then DEFAULT_SESSION else session
  }

  /** What one live entry records. */
  datatype Rec = Rec(id: string, refs: nat)

  /** The listed handles, newest first, and the record behind each live handle.
      `H` is whatever names an entry: an object below, an address elsewhere. */
  datatype Table<!H(==)> = Table(list: seq<H>, recs: map<H, Rec>)

  /** Walks the list from its head and returns the first entry with this id. */
  function Find<H(==)>(t: Table<H>, list: seq<H>, id: string): (r: Option<H>)
    ensures r.Some? ==> r.value in list && r.value in t.recs && t.recs[r.value].id == id
    ensures r.None? ==> forall h :: h in list && h in t.recs ==> t.recs[h].id != id
  {
    if list == [] then None
    else if list[0] in t.recs && t.recs[list[0]].id == id then Some(list[0])
    else Find(t, list[1..], id)
  }

  /** Adds a reference to a listed entry. */
  function Pin<H(==)>(t: Table<H>, h: H): Table<H> {
    if h !in t.recs then t
    else t.(recs := t.recs[h := t.recs[h].(refs := t.recs[h].refs + 1)])
  }

  /** Links a new entry at the head, already holding one reference. */
  function Make<H(==)>(t: Table<H>, h: H, id: string): Table<H> {
    Table([h] + t.list, t.recs[h := Rec(id, 1)])
  }

  /** The list without its first occurrence of `h`. */
  function Without<H(==)>(list: seq<H>, h: H): seq<H> {
    if list == [] then []
    else if list[0] == h then list[1..]
    else [list[0]] + Without(list[1..], h)
  }

  /** Drops a reference; the last one unlinks and frees the entry. */
  function Unpin<H(==)>(t: Table<H>, h: H): Table<H> {
    if h !in t.recs then t
    else if t.recs[h].refs > 1 then t.(recs := t.recs[h := t.recs[h].(refs := t.recs[h].refs - 1)])
    else Table(Without(t.list, h), t.recs - {h})
  }

  ghost predicate Distinct<T>(s: seq<T>) {
    forall i, j :: 0 <= i < j < |s| ==> s[i] != s[j]
  }

  /** The table's own invariant: the list names exactly the live entries, once
      each, no two live entries share an id, and every live entry is referenced. */
  ghost predicate TableOk<H>(t: Table<H>) {
    && Distinct(t.list)
    && (forall h :: h in t.recs ==> h in t.list)
    && (forall h :: h in t.list ==> h in t.recs)
    && (forall g, h :: g in t.recs && h in t.recs && t.recs[g].id == t.recs[h].id ==> g == h)
    && (forall h :: h in t.recs ==> t.recs[h].refs > 0)
  }

  /** Unlinking removes one position and keeps the order of the rest. */
  lemma {:induction false} WithoutAt<H>(list: seq<H>, k: nat)
    requires Distinct(list) && k < |list|
    ensures Without(list, list[k]) == list[..k] + list[k + 1..]
  {
    if k == 0 {
      assert list[..0] + list[1..] == list[1..];
    } else {
      var tail := list[1..];
      WithoutAt(tail, k - 1);
      calc {
        Without(list, list[k]);
        [list[0]] + (tail[..k - 1] + tail[k..]);
        ([list[0]] + tail[..k - 1]) + tail[k..];
        { assert [list[0]] + tail[..k - 1] == list[..k]; assert tail[k..] == list[k + 1..]; }
        list[..k] + list[k + 1..];
      }
    }
  }

  lemma WithoutMembers<H>(list: seq<H>, h: H)
    requires Distinct(list) && h in list
    ensures var r := Without(list, h);
            && Distinct(r)
            && (forall x :: x in r ==> x in list && x != h)
            && (forall x :: x in list && x != h ==> x in r)
  {
    var k :| 0 <= k < |list| && list[k] == h;
    WithoutAt(list, k);
    var r := list[..k] + list[k + 1..];
    forall x | x in list && x != h ensures x in r {
      var j :| 0 <= j < |list| && list[j] == x;
      assert x == if j < k then r[j] else r[j - 1];
    }
  }

  lemma PinKeepsOk<H>(t: Table<H>, h: H)
    requires TableOk(t) && h in t.recs
    ensures TableOk(Pin(t, h))
  {
  }

  lemma MakeKeepsOk<H>(t: Table<H>, h: H, id: string)
    requires TableOk(t) && h !in t.recs && Find(t, t.list, id).None?
    ensures TableOk(Make(t, h, id))
  {
  }

  lemma UnpinKeepsOk<H>(t: Table<H>, h: H)
    requires TableOk(t)
    ensures TableOk(Unpin(t, h))
  {
    hide Without;
    if h in t.recs {
      WithoutMembers(t.list, h);
    }
  }

  /** Two live entries never answer to the same id, so a lookup decides: it finds
      an entry exactly when one is listed, and it is that one. */
  lemma FindIsExact<H>(t: Table<H>, h: H)
    requires TableOk(t) && h in t.recs
    ensures Find(t, t.list, t.recs[h].id) == Some(h)
  {
    var r := Find(t, t.list, t.recs[h].id);
    assert h in t.list;
  }

  /** `lane_sess_lock`: one listed entry. */
  class LaneEntry {
    const id: string
    var references: nat
    var next: LaneEntry?

    constructor (id: string, next: LaneEntry?)
      ensures this.id == id && this.next == next && references == 0
    {
      this.id := id;
      this.next := next;
      references := 0;
    }
  }

  /** The list headed by `g_lane_sess`. */
  class LaneList {
    var head: LaneEntry?
    ghost var nodes: seq<LaneEntry>

    /** `head` and the `next` fields spell out `nodes`; ids are pairwise distinct. */
    ghost predicate Shape()
      reads this, nodes
    {
      && head == Link(nodes, 0)
      && (forall k {:trigger nodes[k].next} :: 0 <= k < |nodes| ==> nodes[k].next == Link(nodes, k + 1))
      && Distinct(nodes)
      && (forall i, j :: 0 <= i < j < |nodes| ==> nodes[i].id != nodes[j].id)
    }

    ghost predicate Valid()
      reads this, nodes
    {
      Shape() && forall e :: e in nodes ==> e.references > 0
    }

    static ghost function Link(s: seq<LaneEntry>, k: nat): LaneEntry? {
      if k < |s| then s[k] else null
    }

    /** The abstract table this list stands for. */
    ghost function View(): Table<LaneEntry>
      reads this, nodes
    {
      Table(nodes, map e | e in nodes :: Rec(e.id, e.references))
    }

    constructor ()
      ensures Valid() && View() == Table([], map[])
    {
      head := null;
      nodes := [];
    }

    lemma ViewOk()
      requires Valid()
      ensures TableOk(View())
    {
    }

    /** The lookup loop. */
    method Search(want: string) returns (e: LaneEntry?)
      requires Valid()
      ensures match Find(View(), nodes, want)
              case Some(h) => e == h
              case None => e == null
    {
      e := head;
      ghost var k := 0;
      while e != null && e.id != want
        invariant 0 <= k <= |nodes| && e == Link(nodes, k)
        invariant Find(View(), nodes, want) == Find(View(), nodes[k..], want)
        decreases |nodes| - k
      {
        assert nodes[k] == e && nodes[k..][0] == e;
        assert nodes[k..][1..] == nodes[k + 1..];
        e := e.next;
        k := k + 1;
      }
      if e != null {
        assert nodes[k..][0] == e;
      }
    }

    /** Links a fresh entry at the head. */
    method Push(want: string) returns (e: LaneEntry)
      requires Valid()
      requires forall k :: 0 <= k < |nodes| ==> nodes[k].id != want
      modifies this
      ensures Valid() && fresh(e) && nodes == [e] + old(nodes)
      ensures View() == Make(old(View()), e, want)
    {
      e := new LaneEntry(want, head);
      e.references := 1;
      nodes := [e] + nodes;
      head := e;
      assert Shape() by {
        assert forall k :: 1 <= k < |nodes| ==> nodes[k] == old(nodes)[k - 1];
      }
      assert View().recs == old(View()).recs[e := Rec(want, 1)] by {
        hide Shape, Valid;
      }
    }

    /** `lane_sess_lock_acquire` up to its `mutex_unlock(&g_lane_sess_mtx)`.
        `memory` tells whether `calloc`, `xstrdup` and `mutex_init` succeed. */
    method Reference(session: string, memory: bool) returns (e: LaneEntry?)
      requires Valid()
      modifies this, nodes
      ensures Valid()
      ensures match Find(old(View()), old(nodes), Key(session))
              case Some(h) => e == h && nodes == old(nodes) && View() == Pin(old(View()), h)
              case None =>
                if memory
                then e != null && fresh(e) && View() == Make(old(View()), e, Key(session))
                else e == null && nodes == old(nodes) && View() == old(View())
    {
      hide Find, Make, Pin;
      var want := if session == "" then DEFAULT_SESSION else session;
      e := Search(want);
      if e == null {
        if memory {
          NoneListed(want);
          e := Push(want);
        }
      } else {
        Count(e);
      }
    }

    method Count(e: LaneEntry)
      requires Valid() && e in nodes
      modifies e`references
      ensures Valid() && nodes == old(nodes) && View() == Pin(old(View()), e)
    {
      hide Shape;
      SetReferences(e, e.references + 1);
    }

    lemma NoneListed(want: string)
      requires Valid() && Find(View(), nodes, want).None?
      ensures forall k :: 0 <= k < |nodes| ==> nodes[k].id != want
    {
      assert forall k :: 0 <= k < |nodes| ==> nodes[k] in nodes && nodes[k] in View().recs;
    }

    method SetReferences(e: LaneEntry, n: nat)
      requires Shape() && e in nodes
      modifies e`references
      ensures Shape() && nodes == old(nodes)
      ensures e.references == n && forall x :: x in nodes && x != e ==> x.references == old(x.references)
      ensures View().recs == old(View()).recs[e := Rec(e.id, n)]
    {
      e.references := n;
    }

    /** Index of `e` in the list. */
    ghost function At(e: LaneEntry): (k: nat)
      requires e in nodes
      reads this
      ensures k < |nodes| && nodes[k] == e
    {
      var k :| 0 <= k < |nodes| && nodes[k] == e; k
    }

    /** The walk from the head to the node whose link is to be overwritten. */
    method Before(e: LaneEntry, ghost at: nat) returns (prev: LaneEntry)
      requires Shape() && 0 < at < |nodes| && nodes[at] == e
      ensures prev == nodes[at - 1] && prev.next == e
    {
      prev := head;
      ghost var k := 0;
      while prev.next != e
        invariant 0 <= k < at && prev == nodes[k]
        decreases at - k
      {
        prev := prev.next;
        k := k + 1;
      }
      assert k + 1 == at;
    }

    /** The unlink loop of `lane_sess_unref`, with the link field it overwrites
        found by walking from the head. */
    method Unlink(e: LaneEntry)
      requires Shape() && e in nodes
      modifies this, nodes
      ensures Shape()
      ensures nodes == Without(old(nodes), e)
      ensures forall n :: n in old(nodes) ==> n.references == old(n.references)
    {
      ghost var at := At(e);
      WithoutAt(nodes, at);
      if head == e {
        UnlinkHead(e);
      } else {
        UnlinkLater(e, at);
      }
    }

    method UnlinkHead(e: LaneEntry)
      requires Shape() && head == e
      modifies this
      ensures Shape() && nodes == old(nodes)[1..]
    {
      head := e.next;
      nodes := nodes[1..];
      assert forall k :: 0 <= k < |nodes| ==> nodes[k] == old(nodes)[k + 1];
    }

    method UnlinkLater(e: LaneEntry, ghost at: nat)
      requires Shape() && 0 < at < |nodes| && nodes[at] == e
      modifies this, nodes
      ensures Shape() && nodes == old(nodes)[..at] + old(nodes)[at + 1..]
      ensures forall n :: n in old(nodes) ==> n.references == old(n.references)
    {
      var prev := Before(e, at);
      prev.next := e.next;
      nodes := nodes[..at] + nodes[at + 1..];
      assert forall k :: at <= k < |nodes| ==> nodes[k] == old(nodes)[k + 1];
    }

    lemma RecordsWithout(before: seq<LaneEntry>, e: LaneEntry, recs: map<LaneEntry, Rec>)
      requires forall n :: n in nodes <==> n in before && n != e
      requires forall n :: n in recs <==> n in before
      requires forall n :: n in nodes ==> recs[n] == Rec(n.id, n.references)
      ensures View().recs == recs - {e}
    {
    }

    /** The same, on the abstract table. */
    method UnlinkWhole(e: LaneEntry)
      requires Shape() && e in nodes
      requires forall n :: n in nodes && n != e ==> n.references > 0
      modifies this, nodes
      ensures Valid()
      ensures View() == Table(Without(old(nodes), e), old(View()).recs - {e})
    {
      WithoutMembers(nodes, e);
      ghost var before, was := nodes, View();
      Unlink(e);
      RecordsWithout(before, e, was.recs);
    }

    /** `lane_sess_unref`. */
    method Unreference(e: LaneEntry)
      requires Valid() && e in nodes
      modifies this, nodes
      ensures Valid()
      ensures View() == Unpin(old(View()), e)
    {
      hide Shape, Without;
      SetReferences(e, e.references - 1);
      if e.references == 0 {
        UnlinkWhole(e);
      }
    }
  }
}
