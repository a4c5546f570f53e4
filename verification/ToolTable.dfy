/**
 The tool registry of src/action/tools.c and what the connection manager of
 src/action/mcp_conn.c does to it: which dynamic tools are registered, which of them the
 manager owns, and which it has freed.
 */
module ToolTable {
  import opened Options

  /** A tool struct.  Its identity is that of the pointer the registry borrows. */
  class Tool {
    const name: string
    const remote: bool   // executed by mcp_remote_exec

    constructor (name: string, remote: bool)
      ensures this.name == name && this.remote == remote
    {
      this.name := name;
      this.remote := remote;
    }
  }

  // ----- the registry -----

  predicate NamesDistinct(ts: seq<Tool>) {
    forall i, j :: 0 <= i < j < |ts| ==> ts[i].name != ts[j].name
  }

  /** The first entry with this name, or the number of entries. */
  function IndexOf(ts: seq<Tool>, name: string): (i: nat)
    ensures i <= |ts|
  {
    if |ts| == 0 || ts[0].name == name then 0 else 1 + IndexOf(ts[1..], name)
  }

  lemma {:induction false} IndexOfIs(ts: seq<Tool>, name: string)
    ensures IndexOf(ts, name) < |ts| ==> ts[IndexOf(ts, name)].name == name
    ensures forall j :: 0 <= j < IndexOf(ts, name) ==> ts[j].name != name
  {
    if |ts| > 0 && ts[0].name != name {
      IndexOfIs(ts[1..], name);
    }
  }

  function Lookup(ts: seq<Tool>, name: string): (r: Option<Tool>)
  {
    var i := IndexOf(ts, name);
    if i < |ts| then Some(ts[i]) else None
  }

  lemma LookupIs(ts: seq<Tool>, name: string)
    ensures var r := Lookup(ts, name);
            if r.Some? then r.value in ts && r.value.name == name else forall t :: t in ts ==> t.name != name
  {
    IndexOfIs(ts, name);
  }

  /** Registered, in the place of an entry of the same name if there is one. */
  function Put(ts: seq<Tool>, t: Tool): seq<Tool> {
    var i := IndexOf(ts, t.name);
    if i < |ts| then ts[i := t] else ts + [t]
  }

  function Drop(ts: seq<Tool>, name: string): seq<Tool> {
    var i := IndexOf(ts, name);
    if i < |ts| then ts[..i] + ts[i + 1..] else ts
  }

  lemma IndexOfMapped(reg: seq<Tool>, k: nat)
    requires NamesDistinct(reg) && k < |reg|
    ensures IndexOf(reg, reg[k].name) == k
  {
    IndexOfIs(reg, reg[k].name);
  }

  lemma PutMembers(ts: seq<Tool>, t: Tool)
    requires NamesDistinct(ts)
    ensures NamesDistinct(Put(ts, t)) && t in Put(ts, t)
    ensures forall u :: u in Put(ts, t) <==> u == t || (u in ts && u.name != t.name)
  {
    IndexOfIs(ts, t.name);
    var i := IndexOf(ts, t.name);
    var ps := Put(ts, t);
    forall u ensures u in ps <==> u == t || (u in ts && u.name != t.name) {
      if i < |ts| {
        PutHas(ts, i, t, u);
      }
    }
    assert i < |ts| ==> ps[i] == t;
  }

  lemma PutHas(ts: seq<Tool>, i: nat, t: Tool, u: Tool)
    requires NamesDistinct(ts) && i < |ts| && ts[i].name == t.name
    ensures u in ts[i := t] <==> u == t || (u in ts && u.name != t.name)
  {
    var ps := ts[i := t];
    assert ps[i] == t;
    if k :| 0 <= k < |ps| && ps[k] == u {
      assert k != i ==> ts[k] == u;
    }
    if k :| 0 <= k < |ts| && ts[k] == u {
      assert k != i ==> ps[k] == u;
    }
  }

  class Registry {
    var tools: seq<Tool>

    constructor ()
      ensures tools == []
    {
      tools := [];
    }

    /** The index of the entry with this name, or the number of entries. */
    method Search(name: string) returns (i: nat)
      ensures i == IndexOf(tools, name)
    {
      i := 0;
      while i < |tools|
        invariant i <= |tools| && IndexOf(tools, name) == i + IndexOf(tools[i..], name)
      {
        if tools[i].name == name {
          return;
        }
        assert tools[i..][1..] == tools[i + 1..];
        i := i + 1;
      }
    }

    /** tool_register_ex.  Appending needs memory, which may not be had. */
    method RegisterEx(t: Tool, replace: bool, memory: bool) returns (ok: bool)
      modifies this
      ensures ok == if Lookup(old(tools), t.name).Some? then replace else memory
      ensures tools == if ok then Put(old(tools), t) else old(tools)
    {
      var i := Search(t.name);
      if i < |tools| {
        if !replace {
          return false;
        }
        tools := tools[i := t];
        return true;
      }
      if !memory {
        return false;
      }
      tools := tools + [t];
      return true;
    }

    method Find(name: string) returns (r: Option<Tool>)
      ensures r == Lookup(tools, name)
    {
      var i := Search(name);
      r := if i < |tools| then Some(tools[i]) else None;
    }

    method Unregister(name: string) returns (ok: bool)
      modifies this
      ensures ok == Lookup(old(tools), name).Some?
      ensures tools == Drop(old(tools), name)
    {
      var i := Search(name);
      ok := i < |tools|;
      if ok {
        tools := tools[..i] + tools[i + 1..];
      }
    }
  }

  // ----- ownership -----

  /** The registry, the manager's own structs, and those it has freed. */
  datatype Tools = Tools(reg: seq<Tool>, owned: seq<Tool>, retired: set<Tool>)

  /** Every owned struct is the one the registry has under its name; no struct is owned
      twice; no freed struct is registered or owned. */
  ghost predicate ToolsOk(s: Tools) {
    && NamesDistinct(s.reg)
    && NoneTwice(s.owned)
    && (forall t :: t in s.owned ==> t in s.reg && t.remote && t !in s.retired)
    && (forall t :: t in s.reg ==> t !in s.retired)
  }

  lemma OwnedIsMapped(s: Tools, t: Tool)
    requires ToolsOk(s) && t in s.owned
    ensures Lookup(s.reg, t.name) == Some(t)
  {
    var i :| 0 <= i < |s.reg| && s.reg[i] == t;
    IndexOfMapped(s.reg, i);
  }

  /** A struct made for a tool a server offers, and whether the tables could grow for it. */
  datatype Offer = Offer(t: Tool, registered: bool, listed: bool)

  function Without(ts: seq<Tool>, t: Tool): seq<Tool> {
    if |ts| == 0 then [] else if ts[0] == t then ts[1..] else [ts[0]] + Without(ts[1..], t)
  }

  /** Registering a new generation retires the one before, if it was owned. */
  function Replaced(s: Tools, t: Tool): Tools {
    var prev := Lookup(s.reg, t.name);
    if prev.Some? && prev.value.remote && prev.value in s.owned
    then Tools(Put(s.reg, t), Without(s.owned, prev.value), s.retired + {prev.value})
    else s.(reg := Put(s.reg, t))
  }

  /** Replacing an entry needs no memory. */
  predicate Takes(s: Tools, o: Offer) {
    Lookup(s.reg, o.t.name).Some? || o.registered
  }

  /** One round of sync_server's loop. */
  function Offered(s: Tools, o: Offer): Tools {
    if !Takes(s, o) then s
    else
      var s' := Replaced(s, o.t);
      if o.listed then s'.(owned := s'.owned + [o.t]) else s'
  }

  predicate IsNew(s: Tools, t: Tool) {
    t.remote && t !in s.reg && t !in s.owned && t !in s.retired
  }

  lemma {:induction false} WithoutAt(ts: seq<Tool>, t: Tool, k: nat)
    requires k <= |ts| && (forall j :: 0 <= j < k ==> ts[j] != t) && (k < |ts| ==> ts[k] == t)
    ensures Without(ts, t) == if k < |ts| then ts[..k] + ts[k + 1..] else ts
  {
    if k > 0 {
      WithoutAt(ts[1..], t, k - 1);
      assert ts == [ts[0]] + ts[1..];
      assert k < |ts| ==> ts[..k] + ts[k + 1..] == [ts[0]] + (ts[1..][..k - 1] + ts[1..][k..]);
    }
  }

  predicate NoneTwice(ts: seq<Tool>) {
    forall i, j :: 0 <= i < j < |ts| ==> ts[i] != ts[j]
  }

  lemma FirstIsNotInRest(ts: seq<Tool>, u: Tool)
    requires NoneTwice(ts) && |ts| > 0
    ensures NoneTwice(ts[1..]) && ts[0] !in ts[1..] && (u in ts <==> u == ts[0] || u in ts[1..])
  {
    assert ts == [ts[0]] + ts[1..];
    forall k | 0 <= k < |ts[1..]| ensures ts[1..][k] != ts[0] {
      assert ts[1..][k] == ts[k + 1];
    }
  }

  lemma {:induction false} WithoutHas(ts: seq<Tool>, t: Tool, u: Tool)
    requires NoneTwice(ts)
    ensures u in Without(ts, t) <==> u in ts && u != t
  {
    if |ts| > 0 {
      FirstIsNotInRest(ts, u);
      WithoutHas(ts[1..], t, u);
    }
  }

  lemma {:induction false} WithoutNoneTwice(ts: seq<Tool>, t: Tool)
    requires NoneTwice(ts)
    ensures NoneTwice(Without(ts, t))
  {
    if |ts| > 0 {
      FirstIsNotInRest(ts, t);
      WithoutNoneTwice(ts[1..], t);
      WithoutHas(ts[1..], t, ts[0]);
    }
  }

  lemma ReplacedKeepsOk(s: Tools, t: Tool)
    requires ToolsOk(s) && IsNew(s, t)
    ensures ToolsOk(Replaced(s, t)) && t in Replaced(s, t).reg && t !in Replaced(s, t).owned
    ensures t !in Replaced(s, t).retired
  {
    PutMembers(s.reg, t);
    var prev := Lookup(s.reg, t.name);
    LookupIs(s.reg, t.name);
    var s' := Replaced(s, t);
    assert NoneTwice(s.owned);
    if prev.Some? {
      WithoutNoneTwice(s.owned, prev.value);
    }
    forall u | u in s'.owned ensures u in s'.reg && u.remote && u !in s'.retired && u != t {
      if prev.Some? {
        WithoutHas(s.owned, prev.value, u);
      }
      OwnedIsMapped(s, u);
    }
    assert NoneTwice(s'.owned);
  }

  lemma OfferKeepsOk(s: Tools, o: Offer)
    requires ToolsOk(s) && IsNew(s, o.t)
    ensures ToolsOk(Offered(s, o))
  {
    ReplacedKeepsOk(s, o.t);
  }

  /** The loop of sync_server over the structs it made. */
  function OfferAll(s: Tools, offers: seq<Offer>): Tools {
    if |offers| == 0 then s else Offered(OfferAll(s, offers[..|offers| - 1]), offers[|offers| - 1])
  }

  /** How many of them ended up owned. */
  function Taken(s: Tools, offers: seq<Offer>): nat {
    if |offers| == 0 then 0
    else
      var n := |offers| - 1;
      Taken(s, offers[..n]) + if Takes(OfferAll(s, offers[..n]), offers[n]) && offers[n].listed then 1 else 0
  }

  /** The structs are new, each allocated once. */
  predicate AllNew(s: Tools, offers: seq<Offer>) {
    && (forall k :: 0 <= k < |offers| ==> IsNew(s, offers[k].t))
    && (forall k, l :: 0 <= k < l < |offers| ==> offers[k].t != offers[l].t)
  }

  lemma StaysNew(s: Tools, o: Offer, t: Tool)
    requires ToolsOk(s) && IsNew(s, o.t) && IsNew(s, t) && t != o.t
    ensures IsNew(Offered(s, o), t)
  {
    PutMembers(s.reg, o.t);
    LookupIs(s.reg, o.t.name);
    var prev := Lookup(s.reg, o.t.name);
    if prev.Some? {
      WithoutHas(s.owned, prev.value, t);
    }
  }

  lemma {:induction false} OffersKeepOk(s: Tools, offers: seq<Offer>, t: Tool)
    requires ToolsOk(s) && AllNew(s, offers)
    ensures ToolsOk(OfferAll(s, offers))
    ensures IsNew(s, t) && (forall k :: 0 <= k < |offers| ==> offers[k].t != t) ==> IsNew(OfferAll(s, offers), t)
  {
    if |offers| > 0 {
      var n := |offers| - 1;
      var m := OfferAll(s, offers[..n]);
      OffersKeepOk(s, offers[..n], offers[n].t);
      OfferKeepsOk(m, offers[n]);
      if IsNew(s, t) && forall k :: 0 <= k < |offers| ==> offers[k].t != t {
        OffersKeepOk(s, offers[..n], t);
        StaysNew(m, offers[n], t);
      }
    }
  }

  // ----- removal by name prefix -----

  function KeptOwned(ts: seq<Tool>, prefix: string): seq<Tool> {
    if |ts| == 0 then []
    else KeptOwned(ts[..|ts| - 1], prefix) + if prefix <= ts[|ts| - 1].name then [] else [ts[|ts| - 1]]
  }

  function Purged(ts: seq<Tool>, prefix: string): set<Tool> {
    set t | t in ts && prefix <= t.name
  }

  function KeptReg(reg: seq<Tool>, gone: set<Tool>): seq<Tool> {
    if |reg| == 0 then []
    else KeptReg(reg[..|reg| - 1], gone) + if reg[|reg| - 1] in gone then [] else [reg[|reg| - 1]]
  }

  /** What mcp_manager_remove leaves: exactly the owned structs whose name starts with
      the prefix have left the registry and been freed. */
  function Removed(s: Tools, prefix: string): Tools {
    var gone := Purged(s.owned, prefix);
    Tools(KeptReg(s.reg, gone), KeptOwned(s.owned, prefix), s.retired + gone)
  }

  lemma {:induction false} KeptRegHas(reg: seq<Tool>, gone: set<Tool>, t: Tool)
    ensures t in KeptReg(reg, gone) <==> t in reg && t !in gone
  {
    if |reg| > 0 {
      KeptRegHas(reg[..|reg| - 1], gone, t);
      assert reg == reg[..|reg| - 1] + [reg[|reg| - 1]];
    }
  }

  lemma {:induction false} KeptRegDistinct(reg: seq<Tool>, gone: set<Tool>)
    requires NamesDistinct(reg)
    ensures NamesDistinct(KeptReg(reg, gone))
  {
    if |reg| > 0 {
      var init, last := reg[..|reg| - 1], reg[|reg| - 1];
      var ks := KeptReg(init, gone);
      KeptRegDistinct(init, gone);
      forall i | 0 <= i < |ks| ensures ks[i].name != last.name {
        KeptRegHas(init, gone, ks[i]);
        var k :| 0 <= k < |init| && init[k] == ks[i];
        assert reg[k] == ks[i];
      }
    }
  }

  lemma KeptRegMembers(reg: seq<Tool>, gone: set<Tool>)
    ensures forall t :: t in KeptReg(reg, gone) <==> t in reg && t !in gone
    ensures NamesDistinct(reg) ==> NamesDistinct(KeptReg(reg, gone))
  {
    forall t ensures t in KeptReg(reg, gone) <==> t in reg && t !in gone {
      KeptRegHas(reg, gone, t);
    }
    if NamesDistinct(reg) {
      KeptRegDistinct(reg, gone);
    }
  }

  lemma {:induction false} KeptOwnedMembers(ts: seq<Tool>, prefix: string)
    ensures forall t :: t in KeptOwned(ts, prefix) <==> t in ts && !(prefix <= t.name)
    ensures NoneTwice(ts) ==> NoneTwice(KeptOwned(ts, prefix))
  {
    if |ts| > 0 {
      var init, last := ts[..|ts| - 1], ts[|ts| - 1];
      KeptOwnedMembers(init, prefix);
      assert ts == init + [last];
      if NoneTwice(ts) {
        assert last !in init;
      }
    }
  }

  lemma RemovedKeepsOk(s: Tools, prefix: string)
    requires ToolsOk(s)
    ensures ToolsOk(Removed(s, prefix))
  {
    KeptRegMembers(s.reg, Purged(s.owned, prefix));
    KeptOwnedMembers(s.owned, prefix);
    assert NoneTwice(s.owned);
    assert NoneTwice(Removed(s, prefix).owned);
  }

  /** Exactly the owned tools with the prefix are gone: everything else is registered,
      and owned, as before. */
  lemma RemovedExactly(s: Tools, prefix: string, t: Tool)
    requires ToolsOk(s)
    ensures t in Removed(s, prefix).reg <==> t in s.reg && !(t in s.owned && prefix <= t.name)
    ensures t in Removed(s, prefix).owned <==> t in s.owned && !(prefix <= t.name)
    ensures t in Removed(s, prefix).retired <==> t in s.retired || (t in s.owned && prefix <= t.name)
  {
    KeptRegMembers(s.reg, Purged(s.owned, prefix));
    KeptOwnedMembers(s.owned, prefix);
  }

  /** Dropping a mapped struct by its name is dropping that struct. */
  lemma DropIsKept(reg: seq<Tool>, k: nat)
    requires NamesDistinct(reg) && k < |reg|
    ensures Drop(reg, reg[k].name) == KeptReg(reg, {reg[k]})
  {
    hide IndexOf, KeptReg;
    IndexOfMapped(reg, k);
    KeptAround(reg[..k], reg[k], reg[k + 1..]);
    assert reg == reg[..k] + [reg[k]] + reg[k + 1..];
  }

  lemma KeptAround(before: seq<Tool>, t: Tool, later: seq<Tool>)
    requires t !in before && t !in later
    ensures KeptReg(before + [t] + later, {t}) == before + later
  {
    hide KeptReg;
    KeptSnoc(before, t, {t});
    NothingGone(before, {t});
    NothingGone(later, {t});
    KeptJoin(before + [t], later, {t});
  }

  lemma {:induction false} KeptJoin(a: seq<Tool>, b: seq<Tool>, gone: set<Tool>)
    ensures KeptReg(a + b, gone) == KeptReg(a, gone) + KeptReg(b, gone)
  {
    if |b| == 0 {
      assert a + b == a;
    } else {
      var n := |b| - 1;
      KeptJoin(a, b[..n], gone);
      KeptSnoc(a + b[..n], b[n], gone);
      assert a + b == a + b[..n] + [b[n]];
    }
  }

  lemma {:induction false} NothingGone(reg: seq<Tool>, gone: set<Tool>)
    requires forall t :: t in reg ==> t !in gone
    ensures KeptReg(reg, gone) == reg
  {
    if |reg| > 0 {
      NothingGone(reg[..|reg| - 1], gone);
    }
  }

  lemma {:induction false} KeptTwice(reg: seq<Tool>, a: set<Tool>, b: set<Tool>)
    ensures KeptReg(KeptReg(reg, a), b) == KeptReg(reg, a + b)
  {
    if |reg| == 0 {
      assert KeptReg(reg, a) == [];
    } else {
      var init, last := reg[..|reg| - 1], reg[|reg| - 1];
      KeptTwice(init, a, b);
      if last in a {
        assert KeptReg(reg, a) == KeptReg(init, a);
      } else {
        assert KeptReg(reg, a) == KeptReg(init, a) + [last];
        KeptSnoc(KeptReg(init, a), last, b);
      }
    }
  }

  lemma KeptSnoc(reg: seq<Tool>, t: Tool, gone: set<Tool>)
    ensures KeptReg(reg + [t], gone) == KeptReg(reg, gone) + if t in gone then [] else [t]
  {
    assert (reg + [t])[..|reg|] == reg;
  }
}
