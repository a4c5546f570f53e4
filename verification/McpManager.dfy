/**
 The connection manager of src/action/mcp_conn.c: its parallel arrays of connections and
 sessions, the sync of a server's tools into the registry, and their removal.

 What the transport does is a parameter: whether a child process lives and can be
 spawned, how the handshake ends and which tools are listed.  So is whether memory can be
 had where the code goes on without it.
 */
module McpManager {
  import opened Options
  import opened ToolTable

  // ----- names -----

  /** The slug buffer holds 127 characters, a tool's full name 511. */
  const SLUG_MAX: nat := 127
  const NAME_MAX: nat := 511

  function SlugChar(c: char): char {
    if ('a' <= c <= 'z') || ('A' <= c <= 'Z') || ('0' <= c <= '9') || c == '_' || c == '-' then c else '_'
  }

  function Slug(server: string): (r: string)
    ensures |r| <= SLUG_MAX
  {
    var n := if |server| < SLUG_MAX then |server| else SLUG_MAX;
    seq(n, i requires 0 <= i < n => SlugChar(server[i]))
  }

  function Prefix(server: string): string {
    ['m', 'c', 'p', '_', '_'] + Slug(server) + ['_', '_']
  }

  function FullName(server: string, tool: string): string {
    var name := Prefix(server) + tool;
    if |name| <= NAME_MAX then name else name[..NAME_MAX]
  }

  /** Cutting a long name off never cuts into the server's prefix. */
  lemma FullNameHasPrefix(server: string, tool: string)
    ensures Prefix(server) <= FullName(server, tool) && |FullName(server, tool)| <= NAME_MAX
  {
    assert |Prefix(server)| <= 5 + SLUG_MAX + 2;
  }

  /** mcp_server_slug. */
  method ServerSlug(server: string) returns (out: string)
    ensures out == Slug(server) && |out| == if |server| < 127 then |server| else 127
    ensures forall i :: 0 <= i < |out| ==>
      var c := server[i];
      out[i] == if ('a' <= c <= 'z') || ('A' <= c <= 'Z') || ('0' <= c <= '9') || c == '_' || c == '-' then c else '_'
  {
    out := [];
    var p := 0;
    while p < |server| && |out| + 1 < SLUG_MAX + 1
      invariant p == |out| <= |server| && p <= SLUG_MAX
      invariant forall i :: 0 <= i < p ==> out[i] == SlugChar(server[i])
    {
      var c := server[p];
      out := out + [if ('a' <= c <= 'z') || ('A' <= c <= 'Z') || ('0' <= c <= '9') || c == '_' || c == '-' then c else '_'];
      p := p + 1;
    }
  }

  // ----- connections -----

  datatype Transport = Http | Stdio | OtherTransport

  /** A connection; the transport is absent when none or an empty one was given. */
  datatype Conn = Conn(name: string, transport: Option<Transport>, url: string, token: string, command: string, args: string)

  /** A session's handshake, and the tools it has listed; a tool may come without a name. */
  datatype Session = Session(initialized: bool, tools: Option<seq<Option<string>>>)

  const Cleared: Session := Session(false, None)

  type Entry = (Conn, Session)

  function TransportOf(c: Conn): Transport {
    if c.transport.Some? then c.transport.value else Http
  }

  function ConnIndex(items: seq<Conn>, name: string): (i: nat)
    ensures i <= |items|
  {
    if |items| == 0 || items[0].name == name then 0 else 1 + ConnIndex(items[1..], name)
  }

  lemma {:induction false} ConnIndexIs(items: seq<Conn>, name: string)
    ensures var i := ConnIndex(items, name);
            && (i < |items| ==> items[i].name == name)
            && (forall j :: 0 <= j < i ==> items[j].name != name)
  {
    if |items| > 0 && items[0].name != name {
      ConnIndexIs(items[1..], name);
    }
  }

  predicate ConnsDistinct(items: seq<Conn>) {
    forall i, j :: 0 <= i < j < |items| ==> items[i].name != items[j].name
  }

  /** What transport and memory do during the sync of one server. */
  datatype Env = Env(
    alive: bool,                                // the child process is running
    spawned: bool,                              // or a new one could be started
    handshake: bool,                            // initialize is answered in time
    listing: Option<seq<Option<string>>>,       // the answer to tools/list
    memory: nat -> (bool, bool, bool))          // for each tool: struct, registry entry, owned entry

  class Manager {
    var items: seq<Conn>
    var sess: seq<Session>
    var owned: seq<Tool>
    ghost var retired: set<Tool>

    /** Connection names are unique and every connection has its session. */
    ghost predicate Valid()
      reads this
    {
      |items| == |sess| && ConnsDistinct(items)
    }

    ghost function Entries(): seq<Entry>
      reads this
      requires Valid()
    {
      seq(|items|, i requires 0 <= i < |items| && |items| == |sess| reads this => (items[i], sess[i]))
    }

    ghost function View(reg: Registry): Tools
      reads this, reg
    {
      Tools(reg.tools, owned, retired)
    }

    constructor ()
      ensures Valid() && items == [] && owned == [] && retired == {}
    {
      items, sess, owned, retired := [], [], [], {};
    }

    /** find_conn, or the number of connections. */
    method FindConn(name: string) returns (i: nat)
      ensures i == ConnIndex(items, name) <= |items|
    {
      i := 0;
      while i < |items|
        invariant i <= |items| && ConnIndex(items, name) == i + ConnIndex(items[i..], name)
      {
        if items[i].name == name {
          return;
        }
        assert items[i..][1..] == items[i + 1..];
        i := i + 1;
      }
    }

    /** mcp_manager_add_ex: a connection of the same name is replaced and its session
        dropped; the others keep theirs. */
    method AddEx(conn: Conn, memory: bool) returns (ok: bool)
      requires Valid()
      modifies this`items, this`sess
      ensures Valid()
      ensures ok <==>
        memory && conn.name != [] && ((conn.transport in {None, Some(Http)} && conn.url != [])
                                      || (conn.transport == Some(Stdio) && conn.command != []))
      ensures !ok ==> items == old(items) && sess == old(sess)
      ensures ok ==> var copy := conn.(transport := Some(TransportOf(conn)));
                     var i := ConnIndex(old(items), conn.name);
                     Entries() == if i < |old(items)| then old(Entries())[i := (copy, Cleared)] else old(Entries()) + [(copy, Cleared)]
    {
      if conn.name == [] {
        return false;
      }
      var transport := if conn.transport.Some? then conn.transport.value else Http;
      if transport != Http && transport != Stdio {
        return false;
      }
      if transport == Http && conn.url == [] {
        return false;
      }
      if transport == Stdio && conn.command == [] {
        return false;
      }
      if !memory {
        return false;
      }
      var copy := conn.(transport := Some(transport));
      var i := FindConn(conn.name);
      ConnIndexIs(items, conn.name);
      if i < |items| {
        items, sess := items[i := copy], sess[i := Cleared];
      } else {
        items, sess := items + [copy], sess + [Cleared];
      }
      return true;
    }

    /** mcp_manager_remove.  Without a registry the tools stay. */
    method Remove(name: string, reg: Registry, purge: bool) returns (ok: bool)
      requires Valid() && ToolsOk(View(reg))
      modifies this, reg
      ensures Valid() && ToolsOk(View(reg))
      ensures var i := ConnIndex(old(items), name);
              && ok == (i < |old(items)|)
              && Entries() == (if ok then old(Entries())[..i] + old(Entries())[i + 1..] else old(Entries()))
      ensures View(reg) == if ok && purge then Removed(old(View(reg)), Prefix(name)) else old(View(reg))
    {
      var i := FindConn(name);
      if i == |items| {
        return false;
      }
      DropConn(i);
      if purge {
        var slug := ServerSlug(name);
        PurgeTools(reg, ['m', 'c', 'p', '_', '_'] + slug + ['_', '_']);
      }
      return true;
    }

    /** The connection and its session leave their lists together. */
    method DropConn(i: nat)
      requires Valid() && i < |items|
      modifies this`items, this`sess
      ensures Valid() && Entries() == old(Entries())[..i] + old(Entries())[i + 1..]
    {
      items, sess := items[..i] + items[i + 1..], sess[..i] + sess[i + 1..];
    }

    /** The loop of mcp_manager_remove over the owned tools, from the last. */
    method PurgeTools(reg: Registry, prefix: string)
      requires ToolsOk(View(reg))
      modifies this`owned, this`retired, reg
      ensures ToolsOk(View(reg))
      ensures View(reg) == Removed(old(View(reg)), prefix)
    {
      hide PurgedFrom;
      ghost var was := View(reg);
      var k := |owned|;
      PurgeNone(was, prefix);
      while k > 0
        invariant 0 <= k <= |was.owned|
        invariant View(reg) == PurgedFrom(was, prefix, k)
      {
        k := k - 1;
        PurgeStep(was, prefix, k);
        if prefix <= owned[k].name {
          var ok := reg.Unregister(owned[k].name);
          retired := retired + {owned[k]};
          owned := owned[..k] + owned[k + 1..];
        }
      }
      PurgeAll(was, prefix);
      RemovedKeepsOk(was, prefix);
    }
  
    // ----- syncing -----

    method Owns(t: Tool) returns (yes: bool)
      ensures yes == (t in owned)
    {
      var k := 0;
      while k < |owned|
        invariant k <= |owned| && forall j :: 0 <= j < k ==> owned[j] != t
      {
        if owned[k] == t {
          return true;
        }
        k := k + 1;
      }
      return false;
    }

    /** The loop that takes a retired struct off the owned table. */
    method Disown(t: Tool)
      modifies this`owned
      ensures owned == Without(old(owned), t)
    {
      var k := 0;
      while k < |owned|
        invariant k <= |owned| && owned == old(owned)
        invariant forall j :: 0 <= j < k ==> owned[j] != t
      {
        if owned[k] == t {
          WithoutAt(owned, t, k);
          owned := owned[..k] + owned[k + 1..];
          return;
        }
        k := k + 1;
      }
      WithoutAt(owned, t, k);
    }

    /** One tool of a server: the new struct replaces the generation before, which is
        retired if this manager owns it. */
    method SyncTool(reg: Registry, full: string, registered: bool, listed: bool) returns (counted: bool, ghost o: Offer)
      requires ToolsOk(View(reg))
      modifies this`owned, this`retired, reg
      ensures View(reg) == Offered(old(View(reg)), o)
      ensures o.t.name == full && o.registered == registered && o.listed == listed
      ensures fresh(o.t) && IsNew(old(View(reg)), o.t)
      ensures counted == (Takes(old(View(reg)), o) && listed)
    {
      var prev := reg.Find(full);
      LookupIs(reg.tools, full);
      var prevOwned := false;
      if prev.Some? && prev.value.remote {
        prevOwned := Owns(prev.value);
      }
      var t := new Tool(full, true);
      o := Offer(t, registered, listed);
      var ok := reg.RegisterEx(t, true, registered);
      if !ok {
        return false, o;
      }
      if prevOwned {
        retired := retired + {prev.value};
        Disown(prev.value);
      }
      if !listed {
        return false, o;
      }
      owned := owned + [t];
      return true, o;
    }

    /** stdio_ensure and ensure_initialized, with what the transport did. */
    method EnsureInitialized(i: nat, env: Env) returns (ok: bool)
      requires Valid() && i < |items|
      modifies this`sess
      ensures Valid() && sess == old(sess)[i := Ready(items[i], old(sess)[i], env).0]
      ensures ok == Ready(items[i], old(sess)[i], env).1
    {
      if TransportOf(items[i]) == Stdio && !env.alive {
        sess := sess[i := Cleared];
        if !env.spawned {
          return false;
        }
      }
      if sess[i].initialized {
        return true;
      }
      if !env.handshake {
        return false;
      }
      sess := sess[i := sess[i].(initialized := true)];
      return true;
    }

    /** fetch_tools: the list is asked for once and kept. */
    method FetchTools(i: nat, env: Env) returns (tools: Option<seq<Option<string>>>)
      requires Valid() && i < |items|
      modifies this`sess
      ensures Valid() && sess == old(sess)[i := Fetched(old(sess)[i], env)]
      ensures tools == Fetched(old(sess)[i], env).tools
    {
      if sess[i].tools.None? && env.listing.Some? {
        sess := sess[i := sess[i].(tools := env.listing)];
      }
      return sess[i].tools;
    }

    /** The same, when the tools before it made of `was` what there is. */
    method SyncOne(reg: Registry, full: string, registered: bool, listed: bool, count: nat, ghost was: Tools, ghost before: seq<Offer>)
      returns (n: nat, ghost o: Offer)
      requires ToolsOk(View(reg)) && View(reg) == OfferAll(was, before) && AllNew(was, before) && count == Taken(was, before)
      modifies this`owned, this`retired, reg
      ensures ToolsOk(View(reg)) && View(reg) == OfferAll(was, before + [o]) && AllNew(was, before + [o])
      ensures n == Taken(was, before + [o])
      ensures o.t.name == full && o.registered == registered && o.listed == listed && fresh(o.t)
    {
      var counted;
      counted, o := SyncTool(reg, full, registered, listed);
      OfferNext(was, before, o);
      n := count + if counted then 1 else 0;
    }

    /** The loop of sync_server over the listed tools. */
    method SyncListed(reg: Registry, server: string, tools: seq<Option<string>>, memory: nat -> (bool, bool, bool))
      returns (registered: nat, ghost offers: seq<Offer>)
      requires ToolsOk(View(reg))
      modifies this`owned, this`retired, reg
      ensures ToolsOk(View(reg))
      ensures View(reg) == OfferAll(old(View(reg)), offers) && AllNew(old(View(reg)), offers)
      ensures Planned(offers, Plan(server, tools, memory))
      ensures forall k :: 0 <= k < |offers| ==> fresh(offers[k].t)
      ensures registered == Taken(old(View(reg)), offers)
    {
      hide Offered, Takes, FullName, ToolsOk, NoneTwice, NamesDistinct;
      ghost var was := View(reg);
      registered, offers := 0, [];
      var n := 0;
      while n < |tools|
        invariant n <= |tools| && registered == Taken(was, offers)
        invariant ToolsOk(View(reg)) && View(reg) == OfferAll(was, offers) && AllNew(was, offers)
        invariant Planned(offers, Plan(server, tools[..n], memory))
        invariant forall k :: 0 <= k < |offers| ==> fresh(offers[k].t)
      {
        PlanNext(server, tools, memory, n);
        var (made, registrable, listable) := memory(n);
        if tools[n].Some? && made {
          var full := MakeName(server, tools[n].value);
          ghost var o;
          registered, o := SyncOne(reg, full, registrable, listable, registered, was, offers);
          PlannedNext(offers, Plan(server, tools[..n], memory), o, (full, registrable, listable));
          offers := offers + [o];
        }
        n := n + 1;
      }
      assert tools[..n] == tools;
    }

    /** sync_server. */
    method SyncServer(reg: Registry, i: nat, env: Env) returns (registered: nat, ghost offers: seq<Offer>)
      requires Valid() && ToolsOk(View(reg)) && i < |items|
      modifies this`sess, this`owned, this`retired, reg
      ensures Valid() && ToolsOk(View(reg))
      ensures sess == old(sess)[i := Synced(items[i], old(sess)[i], env)]
      ensures View(reg) == OfferAll(old(View(reg)), offers) && AllNew(old(View(reg)), offers)
      ensures Planned(offers, Plan(items[i].name, Listed(items[i], old(sess)[i], env), env.memory))
      ensures forall k :: 0 <= k < |offers| ==> fresh(offers[k].t)
      ensures registered == Taken(old(View(reg)), offers)
    {
      registered, offers := 0, [];
      var ok := EnsureInitialized(i, env);
      if !ok {
        return;
      }
      var tools := FetchTools(i, env);
      if tools.None? {
        return;
      }
      registered, offers := SyncListed(reg, items[i].name, tools.value, env.memory);
    }
  
    /** One server of the loop below, whose tools so far made of `was` what there is. */
    method SyncNext(reg: Registry, i: nat, env: Env, count: nat, ghost was: Tools, ghost before: seq<Offer>)
      returns (registered: nat, ghost offers: seq<Offer>)
      requires Valid() && ToolsOk(View(reg)) && i < |items|
      requires View(reg) == OfferAll(was, before) && AllNew(was, before) && count == Taken(was, before)
      modifies this`sess, this`owned, this`retired, reg
      ensures Valid() && ToolsOk(View(reg))
      ensures sess == old(sess)[i := Synced(items[i], old(sess)[i], env)]
      ensures View(reg) == OfferAll(was, offers) && AllNew(was, offers) && registered == Taken(was, offers)
    {
      var n, more := SyncServer(reg, i, env);
      forall k | 0 <= k < |more| ensures IsNew(was, more[k].t) && forall l :: 0 <= l < |before| ==> before[l].t != more[k].t {
      }
      OffersJoin(was, before, more);
      NewTogether(was, before, more);
      registered, offers := count + n, before + more;
    }

    /** mcp_manager_sync_tools: the servers in turn, while the budget lasts.  `envs` and
        `elapsed` are what each sync meets and how long it takes. */
    method SyncTools(reg: Registry, envs: seq<Env>, elapsed: seq<int>) returns (registered: nat, ghost offers: seq<Offer>)
      requires Valid() && ToolsOk(View(reg)) && |envs| == |items| == |elapsed|
      modifies this`sess, this`owned, this`retired, reg
      ensures Valid() && ToolsOk(View(reg))
      ensures sess == SessAfter(items, old(sess), envs, elapsed, |items|)
      ensures View(reg) == OfferAll(old(View(reg)), offers) && AllNew(old(View(reg)), offers)
      ensures registered == Taken(old(View(reg)), offers)
    {
      hide Synced, ToolsOk, Lookup, NamesDistinct;
      ghost var was := View(reg);
      registered, offers := 0, [];
      var left := TOTAL_BUDGET;
      var i := 0;
      while i < |items|
        invariant i <= |items| && left == BudgetLeft(elapsed, i)
        invariant Valid() && ToolsOk(View(reg))
        invariant sess == SessAfter(items, old(sess), envs, elapsed, i)
        invariant View(reg) == OfferAll(was, offers) && AllNew(was, offers)
        invariant registered == Taken(was, offers)
      {
        var tmo := if left < SERVER_BUDGET then left else SERVER_BUDGET;
        if tmo > 0 {
          registered, offers := SyncNext(reg, i, envs[i], registered, was, offers);
          left := left - elapsed[i];
        }
        i := i + 1;
      }
    }
  }

  /** The sessions after the first `k` servers: those reached in time have been synced. */
  function SessAfter(items: seq<Conn>, sess: seq<Session>, envs: seq<Env>, elapsed: seq<int>, k: nat): (r: seq<Session>)
    requires |items| == |sess| == |envs| == |elapsed| && k <= |items|
    ensures |r| == |sess|
  {
    if k == 0 then sess
    else
      var s := SessAfter(items, sess, envs, elapsed, k - 1);
      if Timeout(elapsed, k - 1) > 0 then s[k - 1 := Synced(items[k - 1], s[k - 1], envs[k - 1])] else s
  }

  lemma {:induction false} SessAfterIs(items: seq<Conn>, sess: seq<Session>, envs: seq<Env>, elapsed: seq<int>, k: nat, j: nat)
    requires |items| == |sess| == |envs| == |elapsed| && k <= |items| && j < |items|
    ensures SessAfter(items, sess, envs, elapsed, k)[j]
         == if j < k && Timeout(elapsed, j) > 0 then Synced(items[j], sess[j], envs[j]) else sess[j]
  {
    if k > 0 {
      SessAfterIs(items, sess, envs, elapsed, k - 1, j);
    }
  }

  lemma NewTogether(s: Tools, a: seq<Offer>, b: seq<Offer>)
    requires AllNew(s, a) && AllNew(s, b) && forall k, l :: 0 <= k < |a| && 0 <= l < |b| ==> a[k].t != b[l].t
    ensures AllNew(s, a + b)
  {
  }

  method MakeName(server: string, tool: string) returns (full: string)
    ensures full == FullName(server, tool)
    ensures var all := "mcp__" + Slug(server) + "__" + tool; full == if |all| <= 511 then all else all[..511]
  {
    var slug := ServerSlug(server);
    full := ['m', 'c', 'p', '_', '_'] + slug + ['_', '_'] + tool;
    if |full| > NAME_MAX {
      full := full[..NAME_MAX];
    }
  }

  /** A session after stdio_ensure and the handshake, and whether it can be used. */
  function Ready(c: Conn, s: Session, env: Env): (Session, bool) {
    var restarted := TransportOf(c) == Stdio && !env.alive;
    var s' := if restarted then Cleared else s;
    if restarted && !env.spawned then (s', false)
    else if s'.initialized then (s', true)
    else (s'.(initialized := env.handshake), env.handshake)
  }

  /** When a connection can be used for a listing: a child that is gone must be started anew
      and shake hands again; otherwise one handshake is enough for good. */
  lemma UsableExactly(c: Conn, s: Session, env: Env)
    ensures var (t, usable) := Ready(c, s, env);
            && (usable <==> if c.transport == Some(Stdio) && !env.alive then env.spawned && env.handshake
                            else s.initialized || env.handshake)
            && (usable ==> t.initialized)
            && (!usable ==> t == if c.transport == Some(Stdio) && !env.alive then Session(false, None) else s)
            && (c.transport != Some(Stdio) || env.alive ==> t.tools == s.tools)
  {
  }

  function Fetched(s: Session, env: Env): Session {
    if s.tools.None? then s.(tools := env.listing) else s
  }

  function Synced(c: Conn, s: Session, env: Env): Session {
    if Ready(c, s, env).1 then Fetched(Ready(c, s, env).0, env) else Ready(c, s, env).0
  }

  /** A new session after syncs that met `envs`. */
  function SyncedAll(c: Conn, envs: seq<Env>): Session {
    if |envs| == 0 then Cleared else Synced(c, SyncedAll(c, envs[..|envs| - 1]), envs[|envs| - 1])
  }

  /** The child process is gone, so it is started anew. */
  predicate Restarts(c: Conn, env: Env) {
    TransportOf(c) == Stdio && !env.alive
  }

  lemma KnownIsInitialized(c: Conn, envs: seq<Env>)
    ensures SyncedAll(c, envs).tools.Some? ==> SyncedAll(c, envs).initialized
  {
  }

  /** A list once known is kept, whatever the server would answer by then, as long as
      its process is not started anew; a server reached by HTTP is never asked again. */
  lemma {:induction false} ListIsKept(c: Conn, envs: seq<Env>, more: seq<Env>)
    requires SyncedAll(c, envs).tools.Some?
    requires forall k :: 0 <= k < |more| ==> !Restarts(c, more[k])
    ensures SyncedAll(c, envs + more) == SyncedAll(c, envs)
  {
    if |more| == 0 {
      assert envs + more == envs;
    } else {
      var n := |more| - 1;
      assert (envs + more)[..|envs| + n] == envs + more[..n];
      ListIsKept(c, envs, more[..n]);
      KnownIsInitialized(c, envs);
    }
  }

  /** A list known was given by one sync, whose connection could be used, and the process
      has not been started anew since. */
  lemma {:induction false} ListIsOfOneSync(c: Conn, envs: seq<Env>) returns (k: nat)
    requires SyncedAll(c, envs).tools.Some?
    ensures k < |envs| && envs[k].listing == SyncedAll(c, envs).tools && Ready(c, SyncedAll(c, envs[..k]), envs[k]).1
    ensures forall j :: k < j < |envs| ==> !Restarts(c, envs[j])
  {
    var n := |envs| - 1;
    if Restarts(c, envs[n]) || SyncedAll(c, envs[..n]).tools.None? {
      k := n;
    } else {
      k := ListIsOfOneSync(c, envs[..n]);
      KnownIsInitialized(c, envs[..n]);
      assert envs[..n][..k] == envs[..k];
    }
  }

  /** The tools a sync goes through. */
  function Listed(c: Conn, s: Session, env: Env): seq<Option<string>> {
    if Ready(c, s, env).1 && Synced(c, s, env).tools.Some? then Synced(c, s, env).tools.value else []
  }

  /** For each listed tool that has a name, and for which a struct could be made: its full
      name, and whether the registry and the owned table could grow. */
  function Plan(server: string, tools: seq<Option<string>>, memory: nat -> (bool, bool, bool)): seq<(string, bool, bool)> {
    if |tools| == 0 then []
    else
      var n := |tools| - 1;
      Plan(server, tools[..n], memory)
        + if tools[n].Some? && memory(n).0 then [(FullName(server, tools[n].value), memory(n).1, memory(n).2)] else []
  }

  /** The plan has an entry for each tool that is listed with a name and for which a struct
      could be made, and no other. */
  lemma {:induction false} PlanHas(server: string, tools: seq<Option<string>>, memory: nat -> (bool, bool, bool), entry: (string, bool, bool))
    ensures entry in Plan(server, tools, memory) <==>
      exists n :: 0 <= n < |tools| && tools[n].Some? && memory(n).0 && entry == (FullName(server, tools[n].value), memory(n).1, memory(n).2)
  {
    if |tools| > 0 {
      var n := |tools| - 1;
      PlanHas(server, tools[..n], memory, entry);
      assert forall j :: 0 <= j < n ==> tools[..n][j] == tools[j];
    }
  }

  /** A sync over a usable connection goes through the list known, or else the one answered. */
  lemma ListedIs(c: Conn, s: Session, env: Env)
    ensures var (t, usable) := Ready(c, s, env);
            Listed(c, s, env) == if !usable then [] else if t.tools.Some? then t.tools.value
                                 else if env.listing.Some? then env.listing.value else []
  {
  }

  /** After a sync in which memory could be had, every tool planned is registered, and
      owned, under its full name. */
  lemma {:induction false} SyncedToolsAreThere(s: Tools, offers: seq<Offer>, k: nat) returns (t: Tool)
    requires ToolsOk(s) && AllNew(s, offers) && k < |offers|
    requires forall j :: 0 <= j < |offers| ==> offers[j].registered && offers[j].listed
    ensures t in OfferAll(s, offers).owned && t in OfferAll(s, offers).reg && t.name == offers[k].t.name
  {
    var n := |offers| - 1;
    var before := OfferAll(s, offers[..n]);
    assert AllNew(s, offers[..n]) && offers == offers[..n] + [offers[n]];
    OffersKeepOk(s, offers[..n], offers[n].t);
    var last := offers[n];
    OfferIsThere(before, last);
    if last.t.name == offers[k].t.name {
      t := last.t;
    } else {
      t := SyncedToolsAreThere(s, offers[..n], k);
      OthersStay(before, last, t);
    }
  }

  lemma OfferIsThere(s: Tools, o: Offer)
    requires ToolsOk(s) && o.registered && o.listed
    ensures o.t in Offered(s, o).owned && o.t in Offered(s, o).reg
  {
    PutMembers(s.reg, o.t);
  }

  lemma OthersStay(s: Tools, o: Offer, t: Tool)
    requires ToolsOk(s) && t in s.owned && t in s.reg && t.name != o.t.name
    ensures t in Offered(s, o).owned && t in Offered(s, o).reg
  {
    PutMembers(s.reg, o.t);
    LookupIs(s.reg, o.t.name);
    var prev := Lookup(s.reg, o.t.name);
    if prev.Some? {
      WithoutHas(s.owned, prev.value, t);
    }
  }

  lemma PlanNext(server: string, tools: seq<Option<string>>, memory: nat -> (bool, bool, bool), n: nat)
    requires n < |tools|
    ensures Plan(server, tools[..n + 1], memory)
         == Plan(server, tools[..n], memory)
            + if tools[n].Some? && memory(n).0 then [(FullName(server, tools[n].value), memory(n).1, memory(n).2)] else []
  {
    assert tools[..n + 1][..n] == tools[..n];
  }

  lemma PlannedNext(offers: seq<Offer>, plan: seq<(string, bool, bool)>, o: Offer, entry: (string, bool, bool))
    requires Planned(offers, plan) && (o.t.name, o.registered, o.listed) == entry
    ensures Planned(offers + [o], plan + [entry])
  {
  }

  lemma OfferNext(s: Tools, offers: seq<Offer>, o: Offer)
    requires ToolsOk(OfferAll(s, offers)) && IsNew(OfferAll(s, offers), o.t)
    ensures OfferAll(s, offers + [o]) == Offered(OfferAll(s, offers), o) && ToolsOk(OfferAll(s, offers + [o]))
    ensures Taken(s, offers + [o]) == Taken(s, offers) + if Takes(OfferAll(s, offers), o) && o.listed then 1 else 0
  {
    assert (offers + [o])[..|offers|] == offers;
    OfferKeepsOk(OfferAll(s, offers), o);
  }

  predicate Planned(offers: seq<Offer>, plan: seq<(string, bool, bool)>) {
    && |offers| == |plan|
    && forall k :: 0 <= k < |offers| ==> (offers[k].t.name, offers[k].registered, offers[k].listed) == plan[k]
  }

  /** Removal half done: the owned tools from the `k`th on have been looked at. */
  function PurgedFrom(s: Tools, prefix: string, k: nat): Tools
    requires k <= |s.owned|
  {
    var gone := Purged(s.owned[k..], prefix);
    Tools(KeptReg(s.reg, gone), s.owned[..k] + KeptOwned(s.owned[k..], prefix), s.retired + gone)
  }

  lemma PurgeNone(s: Tools, prefix: string)
    ensures PurgedFrom(s, prefix, |s.owned|) == s
  {
    NothingGone(s.reg, {});
    assert s.owned[|s.owned|..] == [] && s.owned[..|s.owned|] == s.owned;
    assert Purged([], prefix) == {};
  }

  lemma PurgeAll(s: Tools, prefix: string)
    ensures PurgedFrom(s, prefix, 0) == Removed(s, prefix)
  {
    assert s.owned[0..] == s.owned;
  }

  lemma {:induction false} KeptOwnedCons(t: Tool, ts: seq<Tool>, prefix: string)
    ensures KeptOwned([t] + ts, prefix) == (if prefix <= t.name then [] else [t]) + KeptOwned(ts, prefix)
  {
    var us := [t] + ts;
    if |ts| == 0 {
      assert us[..0] == [];
    } else {
      assert us[..|us| - 1] == [t] + ts[..|ts| - 1];
      KeptOwnedCons(t, ts[..|ts| - 1], prefix);
    }
  }

  lemma PurgeStep(s: Tools, prefix: string, k: nat)
    requires ToolsOk(s) && k < |s.owned|
    ensures var a, b, t := PurgedFrom(s, prefix, k + 1), PurgedFrom(s, prefix, k), s.owned[k];
            && k < |a.owned| && a.owned[k] == t
            && b == if prefix <= t.name then Tools(Drop(a.reg, t.name), a.owned[..k] + a.owned[k + 1..], a.retired + {t}) else a
  {
    PurgeOwned(s.owned, prefix, k);
    var t, gone := s.owned[k], Purged(s.owned[k + 1..], prefix);
    if prefix <= t.name {
      PurgeHit(s, prefix, k);
      assert s.retired + (gone + {t}) == s.retired + gone + {t};
    } else {
      assert gone + {} == gone;
    }
  }

  lemma PurgeOwned(owned: seq<Tool>, prefix: string, k: nat)
    requires k < |owned|
    ensures var t, a, b := owned[k], owned[..k + 1] + KeptOwned(owned[k + 1..], prefix), owned[..k] + KeptOwned(owned[k..], prefix);
            && k < |a| && a[k] == t
            && b == (if prefix <= t.name then a[..k] + a[k + 1..] else a)
            && Purged(owned[k..], prefix) == Purged(owned[k + 1..], prefix) + if prefix <= t.name then {t} else {}
  {
    var t, later := owned[k], owned[k + 1..];
    assert owned[k..] == [t] + later;
    assert owned[..k + 1] == owned[..k] + [t];
    KeptOwnedCons(t, later, prefix);
    PurgedCons(t, later, prefix);
  }

  lemma PurgeHit(s: Tools, prefix: string, k: nat)
    requires ToolsOk(s) && k < |s.owned| && prefix <= s.owned[k].name
    ensures var gone := Purged(s.owned[k + 1..], prefix);
            Drop(KeptReg(s.reg, gone), s.owned[k].name) == KeptReg(s.reg, gone + {s.owned[k]})
  {
    var gone := Purged(s.owned[k + 1..], prefix);
    NotGoneYet(s, prefix, k);
    KeptTwice(s.reg, gone, {s.owned[k]});
    DropOwned(s, gone, s.owned[k]);
  }

  lemma PurgedCons(t: Tool, later: seq<Tool>, prefix: string)
    ensures Purged([t] + later, prefix) == Purged(later, prefix) + if prefix <= t.name then {t} else {}
  {
  }

  lemma NotGoneYet(s: Tools, prefix: string, k: nat)
    requires ToolsOk(s) && k < |s.owned|
    ensures s.owned[k] !in Purged(s.owned[k + 1..], prefix)
  {
    assert NoneTwice(s.owned);
  }

  lemma DropOwned(s: Tools, gone: set<Tool>, t: Tool)
    requires ToolsOk(s) && t in s.owned && t !in gone
    ensures Drop(KeptReg(s.reg, gone), t.name) == KeptReg(KeptReg(s.reg, gone), {t})
  {
    var ks := KeptReg(s.reg, gone);
    KeptRegMembers(s.reg, gone);
    var i :| 0 <= i < |ks| && ks[i] == t;
    DropIsKept(ks, i);
  }

  lemma {:induction false} OffersJoin(s: Tools, a: seq<Offer>, b: seq<Offer>)
    ensures OfferAll(s, a + b) == OfferAll(OfferAll(s, a), b)
    ensures Taken(s, a + b) == Taken(s, a) + Taken(OfferAll(s, a), b)
  {
    if |b| == 0 {
      assert a + b == a;
    } else {
      var n := |b| - 1;
      OffersJoin(s, a, b[..n]);
      assert (a + b)[..|a + b| - 1] == a + b[..n] && (a + b)[|a + b| - 1] == b[n];
    }
  }

  // ----- the budget of a boot sync -----

  const TOTAL_BUDGET: int := 8000
  const SERVER_BUDGET: int := 4000

  function BudgetLeft(elapsed: seq<int>, k: nat): int
    requires k <= |elapsed|
  {
    if k == 0 then TOTAL_BUDGET
    else BudgetLeft(elapsed, k - 1) - if BudgetLeft(elapsed, k - 1) > 0 then elapsed[k - 1] else 0
  }

  /** The time given to the `k`th server; none is left when it is not positive. */
  function Timeout(elapsed: seq<int>, k: nat): int
    requires k < |elapsed|
  {
    if BudgetLeft(elapsed, k) < SERVER_BUDGET then BudgetLeft(elapsed, k) else SERVER_BUDGET
  }

  function Spent(elapsed: seq<int>, k: nat): int
    requires k <= |elapsed|
  {
    if k == 0 then 0
    else Spent(elapsed, k - 1) + if Timeout(elapsed, k - 1) > 0 then elapsed[k - 1] else 0
  }

  /** A server is tried as long as the time spent is less than eight seconds, for at most
      four and at most what is left. */
  lemma TimeoutIs(elapsed: seq<int>, k: nat)
    requires k < |elapsed|
    ensures Timeout(elapsed, k) == var left := 8000 - Spent(elapsed, k); if left < 4000 then left else 4000
  {
    BudgetIs(elapsed, k);
  }

  lemma {:induction false} BudgetIs(elapsed: seq<int>, k: nat)
    requires k <= |elapsed|
    ensures BudgetLeft(elapsed, k) == 8000 - Spent(elapsed, k)
  {
    if k > 0 {
      BudgetIs(elapsed, k - 1);
    }
  }

  /** When every server that is tried keeps its timeout, the whole sync keeps the budget;
      and once one is skipped, so are all after it. */
  lemma {:induction false} SyncKeepsBudget(elapsed: seq<int>, k: nat)
    requires k <= |elapsed|
    requires forall i :: 0 <= i < k && Timeout(elapsed, i) > 0 ==> 0 <= elapsed[i] <= Timeout(elapsed, i)
    ensures 0 <= Spent(elapsed, k) == TOTAL_BUDGET - BudgetLeft(elapsed, k) <= TOTAL_BUDGET
    ensures forall i :: 0 <= i < k < |elapsed| && Timeout(elapsed, i) <= 0 ==> Timeout(elapsed, k) <= 0
  {
    if k > 0 {
      SyncKeepsBudget(elapsed, k - 1);
    }
  }

  // ----- whole runs -----

  /** What happens to the registry: a tool is registered by someone else, a server is
      synced, or a connection is removed. */
  datatype Op = Static(t: Tool, memory: bool) | Sync(server: string, offers: seq<Offer>) | Remove(server: string)

  predicate Possible(s: Tools, op: Op) {
    match op
    case Static(t, _) => !t.remote && t !in s.retired
    case Sync(server, offers) => AllNew(s, offers) && forall k :: 0 <= k < |offers| ==> Prefix(server) <= offers[k].t.name
    case Remove(_) => true
  }

  function Apply(s: Tools, op: Op): Tools {
    match op
    case Static(t, memory) => if Lookup(s.reg, t.name).None? && memory then s.(reg := s.reg + [t]) else s
    case Sync(_, offers) => OfferAll(s, offers)
    case Remove(server) => Removed(s, Prefix(server))
  }

  function Run(s: Tools, ops: seq<Op>): Tools {
    if |ops| == 0 then s else Apply(Run(s, ops[..|ops| - 1]), ops[|ops| - 1])
  }

  predicate Behaviour(s: Tools, ops: seq<Op>) {
    |ops| == 0 || (Behaviour(s, ops[..|ops| - 1]) && Possible(Run(s, ops[..|ops| - 1]), ops[|ops| - 1]))
  }

  lemma ApplyKeepsOk(s: Tools, op: Op)
    requires ToolsOk(s) && Possible(s, op)
    ensures ToolsOk(Apply(s, op))
  {
    match op
    case Static(t, _) => LookupIs(s.reg, t.name);
    case Sync(_, offers) =>
      if |offers| > 0 {
        OffersKeepOk(s, offers, offers[0].t);
      }
    case Remove(server) => RemovedKeepsOk(s, Prefix(server));
  }

  /** Through any run every owned tool is the struct its name is mapped to, none is owned
      twice, and no freed struct is registered. */
  lemma {:induction false} EveryRunIsOk(ops: seq<Op>)
    requires Behaviour(Tools([], [], {}), ops)
    ensures ToolsOk(Run(Tools([], [], {}), ops))
  {
    if |ops| > 0 {
      EveryRunIsOk(ops[..|ops| - 1]);
      ApplyKeepsOk(Run(Tools([], [], {}), ops[..|ops| - 1]), ops[|ops| - 1]);
    }
  }

  /** A planned sync is a possible one: its tools carry the server's prefix. */
  lemma {:induction false} PlanHasPrefix(server: string, tools: seq<Option<string>>, memory: nat -> (bool, bool, bool), k: nat)
    requires k < |Plan(server, tools, memory)|
    ensures Prefix(server) <= Plan(server, tools, memory)[k].0
  {
    var n := |tools| - 1;
    if k < |Plan(server, tools[..n], memory)| {
      PlanHasPrefix(server, tools[..n], memory, k);
    } else {
      FullNameHasPrefix(server, tools[n].value);
    }
  }

  /** After a server is synced and, at any later time, removed, none of the structs that
      sync made is owned any more, and none that was owned is registered. */
  lemma RemoveClearsServer(ops: seq<Op>, at: nat, k: nat)
    requires Behaviour(Tools([], [], {}), ops) && at < |ops| && ops[at].Sync? && k < |ops[at].offers|
    ensures var s := Run(Tools([], [], {}), ops); var s' := Removed(s, Prefix(ops[at].server)); var t := ops[at].offers[k].t;
            && t !in s'.owned
            && (t in s.owned ==> t !in s'.reg && t in s'.retired)
  {
    EveryRunIsOk(ops);
    PossibleAt(Tools([], [], {}), ops, at);
    RemovedExactly(Run(Tools([], [], {}), ops), Prefix(ops[at].server), ops[at].offers[k].t);
  }

  lemma {:induction false} PossibleAt(s: Tools, ops: seq<Op>, at: nat)
    requires Behaviour(s, ops) && at < |ops|
    ensures Possible(Run(s, ops[..at]), ops[at])
  {
    if at < |ops| - 1 {
      PossibleAt(s, ops[..|ops| - 1], at);
      assert ops[..|ops| - 1][..at] == ops[..at];
    }
  }

  // ----- whose tools a removal takes -----

  /** One of the prefixes extends the other, or they are the same. */
  predicate Comparable(s: string, t: string) {
    Prefix(s) <= Prefix(t) || Prefix(t) <= Prefix(s)
  }

  lemma PrefixesOfOne(a: string, b: string, c: string)
    requires a <= c && b <= c
    ensures a <= b || b <= a
  {
    if |a| <= |b| {
      assert a == c[..|a|] == b[..|a|];
    } else {
      assert b == c[..|b|] == a[..|b|];
    }
  }

  /** A tool of server `t` that removing server `s` would take: when the prefix of `s` is
      the longer one, a tool that is named like the rest of it. */
  lemma TakenTool(s: string, t: string) returns (tool: string)
    requires Comparable(s, t)
    ensures Prefix(s) <= FullName(t, tool)
  {
    tool := [];
    if Prefix(t) <= Prefix(s) {
      tool := Prefix(s)[|Prefix(t)|..];
      assert Prefix(t) + tool == Prefix(s);
      assert |Prefix(s)| <= 5 + SLUG_MAX + 2;
    } else {
      FullNameHasPrefix(t, tool);
    }
  }

  /** Removing server `s` can take a tool of server `t` exactly when one of their prefixes
      extends the other: the slugs may be the same, or one may go on after two underscores
      where the other ends. */
  lemma RemovalReachesExactly(s: string, t: string)
    ensures (exists tool :: Prefix(s) <= FullName(t, tool)) <==> Comparable(s, t)
  {
    if tool :| Prefix(s) <= FullName(t, tool) {
      FullNameHasPrefix(t, tool);
      PrefixesOfOne(Prefix(s), Prefix(t), FullName(t, tool));
    }
    if Comparable(s, t) {
      var tool := TakenTool(s, t);
    }
  }

  /** In any run: what a sync of server `t` made, and is still owned, survives the removal
      of server `s` untouched when their prefixes are not comparable; in general it is
      taken exactly when its name starts with the prefix of `s`. */
  lemma RemovalSparesOthers(ops: seq<Op>, at: nat, k: nat, s: string)
    requires Behaviour(Tools([], [], {}), ops) && at < |ops| && ops[at].Sync? && k < |ops[at].offers|
    ensures var now := Run(Tools([], [], {}), ops); var later := Removed(now, Prefix(s)); var u := ops[at].offers[k].t;
            u in now.owned ==>
              && (u in later.owned <==> !(Prefix(s) <= u.name))
              && (u in later.reg <==> !(Prefix(s) <= u.name))
              && (!Comparable(s, ops[at].server) ==> u in later.owned && u in later.reg && u !in later.retired)
  {
    EveryRunIsOk(ops);
    PossibleAt(Tools([], [], {}), ops, at);
    var now, u := Run(Tools([], [], {}), ops), ops[at].offers[k].t;
    RemovedExactly(now, Prefix(s), u);
    if Prefix(s) <= u.name {
      PrefixesOfOne(Prefix(s), Prefix(ops[at].server), u.name);
    }
  }

  /** Two names that a caller would not take for related: one slug, and one prefix that
      goes on. */
  lemma RelatedNames()
    ensures Prefix(['a', ' ', 'b']) == Prefix(['a', '_', 'b'])
    ensures Slug(['a']) != Slug(['a', '_', '_', 'b']) && Comparable(['a'], ['a', '_', '_', 'b'])
  {
    assert Prefix(['a']) == ['m', 'c', 'p', '_', '_', 'a', '_', '_'];
    assert Prefix(['a', '_', '_', 'b']) == ['m', 'c', 'p', '_', '_', 'a', '_', '_', 'b', '_', '_'];
  }
}
