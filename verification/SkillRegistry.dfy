/**
 The registry of src/action/skill.c: the current versions in `items`, and the list of all
 versions ever made, which are lent to callers and never changed or freed before the
 registry is.
 */
module SkillRegistry {
  import opened Options
  import opened SkillTable

  class Version {
    var value: Skill
    var next: Version?

    constructor (value: Skill, next: Version?)
      ensures this.value == value && this.next == next
    {
      this.value, this.next := value, next;
    }
  }

  /** What a caller does with a registry. */
  datatype Op =
    | Register(g: Given, replace: bool, memory: bool)
    | Unregister(name: string)
    | Load(records: seq<Record>)

  function Applied(ss: seq<Skill>, op: Op): seq<Skill> {
    match op
    case Register(g, replace, memory) => if memory then Registered(ss, g, replace).0 else ss
    case Unregister(name) => Unregistered(ss, name).0
    case Load(records) => Loaded(ss, records)
  }

  function AllApplied(ss: seq<Skill>, ops: seq<Op>): seq<Skill> {
    if |ops| == 0 then ss else Applied(AllApplied(ss, ops[..|ops| - 1]), ops[|ops| - 1])
  }

  /** Everything on the list before is on it now. */
  ghost predicate Extends(now: seq<Version>, was: seq<Version>) {
    |was| <= |now| && now[|now| - |was|..] == was
  }

  function At(vs: seq<Version>, i: nat): Version? {
    if i < |vs| then vs[i] else null
  }

  lemma ExtendsAll(now: seq<Version>, mid: seq<Version>, was: seq<Version>)
    requires Extends(now, mid) && Extends(mid, was)
    ensures Extends(now, was)
  {
    assert now[|now| - |was|..] == now[|now| - |mid|..][|mid| - |was|..];
  }

  lemma ExtendsHas(now: seq<Version>, was: seq<Version>)
    requires Extends(now, was)
    ensures forall v :: v in was ==> v in now
  {
    assert now == now[..|now| - |was|] + was;
  }

  class Registry {
    var items: seq<Version>
    var versions: Version?
    ghost var live: seq<Version>

    /** The list of versions holds them all, the newest first. */
    ghost predicate Listed()
      reads this, live
    {
      && versions == At(live, 0)
      && (forall i :: 0 <= i < |live| ==> live[i].next == At(live, i + 1))
    }

    ghost predicate Valid()
      reads this, live, items
    {
      Listed() && (forall v :: v in items ==> v in live) && TableOk(Table())
    }

    function Table(): (r: seq<Skill>)
      reads this, items
      ensures |r| == |items|
    {
      seq(|items|, i requires 0 <= i < |items| reads this, items => items[i].value)
    }

    constructor ()
      ensures Valid() && items == [] && live == []
    {
      items, versions, live := [], null, [];
    }

    /** find_skill, or the number of skills. */
    method FindSkill(name: string) returns (i: nat)
      ensures i == IndexOf(Table(), name)
    {
      i := 0;
      while i < |items|
        invariant i <= |items|
        invariant forall j :: 0 <= j < i ==> Table()[j].name != name
      {
        if items[i].value.name == name {
          break;
        }
        i := i + 1;
      }
      IndexOfFirst(Table(), name, i);
    }

    /** skill_register_ex.  Nothing that was lent is touched; the same content again makes
        no new version. */
    method RegisterEx(g: Given, replace: bool, memory: bool) returns (ok: bool)
      requires Valid()
      modifies this
      ensures Valid()
      ensures Table() == if memory then Registered(old(Table()), g, replace).0 else old(Table())
      ensures ok == (memory && Registered(old(Table()), g, replace).1)
      ensures Extends(live, old(live))
      ensures Table() == old(Table()) ==> items == old(items)
    {
      hide IndexOf;
      if g.name.None? || g.name.value == [] {
        return false;
      }
      var kind := if g.kind.Some? then g.kind.value else Shell;
      if kind == OtherKind || !memory {
        return false;
      }
      var copy := Skill(g.name.value, OrEmpty(g.description), kind, OrEmpty(g.body), OrEmpty(g.caps));
      var i := FindSkill(copy.name);
      RegisteredIsMap(Table(), g, replace, []);
      if i < |items| && !replace {
        return false;
      }
      if i < |items| {
        var was := items[i].value;
        if was.description == copy.description && was.kind == copy.kind && was.body == copy.body && was.caps == copy.caps {
          IndexOfIs(Table(), copy.name);
          assert was == copy;
          assert Table()[i := copy] == Table();
          return true;
        }
      }
      NewVersion(i, copy);
      return true;
    }

    /** A new version becomes the current one of its name. */
    method NewVersion(i: nat, copy: Skill)
      requires Valid() && i <= |items|
      requires TableOk(if i < |items| then Table()[i := copy] else Table() + [copy])
      modifies this
      ensures Valid() && Extends(live, old(live))
      ensures Table() == if i < |old(items)| then old(Table())[i := copy] else old(Table()) + [copy]
      ensures |live| == |old(live)| + 1 && fresh(live[0])
    {
      ghost var goal := if i < |items| then Table()[i := copy] else Table() + [copy];
      var v := new Version(copy, versions);
      versions := v;
      live := [v] + live;
      if i < |items| {
        items := items[i := v];
      } else {
        items := items + [v];
      }
      assert Table() == goal;
      assert TableOk(Table());
    }

    /** skill_find. */
    method Find(name: string) returns (v: Version?)
      requires Valid()
      ensures if v == null then Lookup(Table(), name) == None else v in live && Lookup(Table(), name) == Some(v.value)
    {
      var i := FindSkill(name);
      v := if i < |items| then items[i] else null;
    }

    /** skill_get. */
    method Get(i: nat) returns (v: Version?)
      requires Valid()
      ensures if i < |Table()| then v != null && v in live && v.value == Table()[i] else v == null
    {
      v := if i < |items| then items[i] else null;
    }

    /** skill_unregister: the version stays, for those who hold it. */
    method Unregister(name: string) returns (ok: bool)
      requires Valid()
      modifies this`items
      ensures Valid()
      ensures Table() == Unregistered(old(Table()), name).0 && ok == Unregistered(old(Table()), name).1
      ensures Extends(live, old(live))
    {
      var i := FindSkill(name);
      ok := i < |items|;
      UnregisteredIsMap(Table(), name, []);
      if ok {
        RemoveAt(i);
      }
    }

    /** The shift of the items behind the one removed. */
    method RemoveAt(i: nat)
      requires Valid() && i < |items| && TableOk(Table()[..i] + Table()[i + 1..])
      modifies this`items
      ensures Valid() && Table() == old(Table())[..i] + old(Table())[i + 1..]
    {
      items := items[..i] + items[i + 1..];
      assert Table() == old(Table())[..i] + old(Table())[i + 1..];
      assert TableOk(Table());
    }

    /** The loop of skill_registry_persist. */
    method Persist() returns (records: seq<Record>)
      requires Valid()
      ensures records == Persisted(Table())
      ensures forall i :: 0 <= i < |Table()| ==> var s := Table()[i];
        records[i] == Record(Given(Some(s.name), Some(s.description), Some(s.kind), Some(s.body), if s.caps == "" then None else Some(s.caps)))
    {
      records := [];
      var i := 0;
      while i < |items|
        invariant i <= |items| && |records| == i
        invariant forall j :: 0 <= j < i ==> records[j] == Written(Table()[j])
      {
        var e := items[i].value;
        var caps := if e.caps != [] then Some(e.caps) else None;
        records := records + [Record(Given(Some(e.name), Some(e.description), Some(e.kind), Some(e.body), caps))];
        i := i + 1;
      }
    }

    /** The loop of skill_registry_load. */
    method LoadAll(records: seq<Record>)
      requires Valid()
      modifies this
      ensures Valid() && Table() == Loaded(old(Table()), records)
      ensures Extends(live, old(live))
    {
      var i := 0;
      while i < |records|
        invariant i <= |records| && Valid() && Extends(live, old(live))
        invariant Table() == Loaded(old(Table()), records[..i])
      {
        assert records[..i + 1][..i] == records[..i];
        ghost var mid := live;
        LoadRecord(records[i]);
        ExtendsAll(live, mid, old(live));
        i := i + 1;
      }
      assert records[..i] == records;
    }

    method LoadRecord(r: Record)
      requires Valid()
      modifies this
      ensures Valid() && Table() == LoadedOne(old(Table()), r)
      ensures Extends(live, old(live))
    {
      if r.Record? && r.g.name.Some? {
        var g := r.g.(description := Some(OrEmpty(r.g.description)), body := Some(OrEmpty(r.g.body)), caps := Some(OrEmpty(r.g.caps)));
        var ok := RegisterEx(g, false, true);
      }
    }

    /** Any run of calls: the table is what the map says, and every version that was ever
        lent is still there, with the fields it had. */
    method RunAll(ops: seq<Op>)
      requires Valid()
      modifies this
      ensures Valid() && Table() == AllApplied(old(Table()), ops)
      ensures Extends(live, old(live))
      ensures forall v :: v in old(live) ==> v in live && v.value == old(v.value) && v.next == old(v.next)
    {
      var i := 0;
      while i < |ops|
        invariant i <= |ops| && Valid() && Extends(live, old(live))
        invariant Table() == AllApplied(old(Table()), ops[..i])
      {
        assert ops[..i + 1][..i] == ops[..i];
        ghost var mid := live;
        RunOne(ops[i]);
        ExtendsAll(live, mid, old(live));
        i := i + 1;
      }
      assert ops[..i] == ops;
      ExtendsHas(live, old(live));
    }

    method RunOne(op: Op)
      requires Valid()
      modifies this
      ensures Valid() && Table() == Applied(old(Table()), op)
      ensures Extends(live, old(live))
    {
      match op {
        case Register(g, replace, memory) =>
          var ok := RegisterEx(g, replace, memory);
        case Unregister(name) =>
          var ok := Unregister(name);
        case Load(records) =>
          LoadAll(records);
      }
    }
  }
}
