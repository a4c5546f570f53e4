/**
 The skill registry of src/action/skill.c as a map in insertion order, and what its
 state file keeps of it.
 */
module SkillTable {
  import opened Options

  datatype Kind = Shell | Python | Prompt | OtherKind

  datatype Skill = Skill(name: string, description: string, kind: Kind, body: string, caps: string)

  /** A skill as a caller gives it: absent texts are empty, an absent or empty kind is
      a shell skill. */
  datatype Given = Given(
    name: Option<string>, description: Option<string>, kind: Option<Kind>, body: Option<string>, caps: Option<string>)

  function OrEmpty(s: Option<string>): string {
    if s.Some? then s.value else []
  }

  predicate Acceptable(g: Given) {
    g.name.Some? && g.name.value != [] && g.kind != Some(OtherKind)
  }

  function Copy(g: Given): Skill
    requires Acceptable(g)
  {
    Skill(g.name.value, OrEmpty(g.description), if g.kind.Some? then g.kind.value else Shell, OrEmpty(g.body), OrEmpty(g.caps))
  }

  /** What is given is kept; absent texts are empty, and an absent kind is a shell skill. */
  predicate IsCopy(s: Skill, g: Given) {
    && Some(s.name) == g.name
    && (if g.description.Some? then s.description == g.description.value else s.description == "")
    && (if g.kind.Some? then s.kind == g.kind.value else s.kind == Shell)
    && (if g.body.Some? then s.body == g.body.value else s.body == "")
    && (if g.caps.Some? then s.caps == g.caps.value else s.caps == "")
  }

  lemma CopyIs(g: Given)
    ensures Acceptable(g) <==> g.name.Some? && g.name.value != "" && (g.kind.Some? ==> g.kind.value in {Shell, Python, Prompt})
    ensures Acceptable(g) ==> IsCopy(Copy(g), g)
  {
    if g.kind.Some? {
      var k := g.kind.value;
      assert k == Shell || k == Python || k == Prompt || k == OtherKind;
    }
  }

  // ----- the map -----

  predicate SkillsDistinct(ss: seq<Skill>) {
    forall i, j :: 0 <= i < j < |ss| ==> ss[i].name != ss[j].name
  }

  predicate TableOk(ss: seq<Skill>) {
    SkillsDistinct(ss) && forall i :: 0 <= i < |ss| ==> ss[i].name != [] && ss[i].kind != OtherKind
  }

  /** Where the name is, or the number of skills. */
  function IndexOf(ss: seq<Skill>, name: string): (i: nat)
    ensures i <= |ss|
  {
    if |ss| == 0 || ss[0].name == name then 0 else 1 + IndexOf(ss[1..], name)
  }

  lemma {:induction false} IndexOfIs(ss: seq<Skill>, name: string)
    ensures var i := IndexOf(ss, name);
            && (i < |ss| ==> ss[i].name == name)
            && (forall j :: 0 <= j < i ==> ss[j].name != name)
  {
    if |ss| > 0 && ss[0].name != name {
      IndexOfIs(ss[1..], name);
    }
  }

  lemma {:induction false} IndexOfFirst(ss: seq<Skill>, name: string, i: nat)
    requires i <= |ss| && (forall j :: 0 <= j < i ==> ss[j].name != name) && (i < |ss| ==> ss[i].name == name)
    ensures IndexOf(ss, name) == i
  {
    IndexOfIs(ss, name);
  }

  /** skill_register_ex, when memory can be had. */
  function Registered(ss: seq<Skill>, g: Given, replace: bool): (seq<Skill>, bool) {
    if !Acceptable(g) then (ss, false)
    else
      var i := IndexOf(ss, g.name.value);
      if i < |ss| && !replace then (ss, false)
      else if i < |ss| then (ss[i := Copy(g)], true)
      else (ss + [Copy(g)], true)
  }

  /** skill_unregister. */
  function Unregistered(ss: seq<Skill>, name: string): (seq<Skill>, bool) {
    var i := IndexOf(ss, name);
    if i < |ss| then (ss[..i] + ss[i + 1..], true) else (ss, false)
  }

  function Lookup(ss: seq<Skill>, name: string): Option<Skill> {
    var i := IndexOf(ss, name);
    if i < |ss| then Some(ss[i]) else None
  }

  lemma RegisteredIsMap(ss: seq<Skill>, g: Given, replace: bool, other: string)
    requires TableOk(ss)
    ensures var (ss', ok) := Registered(ss, g, replace);
            && TableOk(ss')
            && ok == (Acceptable(g) && (replace || Lookup(ss, g.name.value).None?))
            && (ok ==> Lookup(ss', g.name.value) == Some(Copy(g)))
            && (!ok ==> ss' == ss)
            && (ok && other != g.name.value ==> Lookup(ss', other) == Lookup(ss, other))
  {
    hide IndexOf, OrEmpty;
    var (ss', ok) := Registered(ss, g, replace);
    if ok {
      var name := g.name.value;
      var i := IndexOf(ss, name);
      IndexOfIs(ss, name);
      IndexOfFirst(ss', name, i);
      if other != name {
        var k := IndexOf(ss, other);
        IndexOfIs(ss, other);
        IndexOfFirst(ss', other, if k < |ss| then k else |ss'|);
      }
    }
  }

  lemma UnregisteredIsMap(ss: seq<Skill>, name: string, other: string)
    requires TableOk(ss)
    ensures var (ss', ok) := Unregistered(ss, name);
            && TableOk(ss')
            && ok == Lookup(ss, name).Some?
            && Lookup(ss', name) == None
            && (other != name ==> Lookup(ss', other) == Lookup(ss, other))
  {
    hide IndexOf;
    var (ss', ok) := Unregistered(ss, name);
    var i := IndexOf(ss, name);
    IndexOfIs(ss, name);
    IndexOfFirst(ss', name, |ss'|);
    if other != name && ok {
      var k := IndexOf(ss, other);
      IndexOfIs(ss, other);
      IndexOfFirst(ss', other, if k < i then k else k - 1);
    }
  }

  /** A lookup gives the one skill of the name. */
  lemma LookupIs(ss: seq<Skill>, name: string, s: Skill)
    requires TableOk(ss)
    ensures Lookup(ss, name) == Some(s) <==> s in ss && s.name == name
  {
    IndexOfIs(ss, name);
  }

  /** Names keep the order in which they came: replacing leaves every name in its place,
      and a new one goes to the end. */
  lemma OrderIsKept(ss: seq<Skill>, g: Given, replace: bool)
    requires TableOk(ss)
    ensures var (ss', ok) := Registered(ss, g, replace);
            && |ss| <= |ss'| <= |ss| + 1
            && (forall i :: 0 <= i < |ss| ==> ss'[i].name == ss[i].name)
            && (|ss'| > |ss| ==> ok && ss'[|ss|].name == g.name.value)
  {
    if Acceptable(g) {
      IndexOfIs(ss, g.name.value);
    }
  }

  /** Removing a name leaves the others in order. */
  lemma RemovalKeepsOrder(ss: seq<Skill>, name: string)
    requires TableOk(ss)
    ensures var (ss', ok) := Unregistered(ss, name);
            if ok then exists k :: 0 <= k < |ss| && ss[k].name == name && ss' == ss[..k] + ss[k + 1..]
            else ss' == ss && forall k :: 0 <= k < |ss| ==> ss[k].name != name
  {
    IndexOfIs(ss, name);
  }

  // ----- the state file -----

  /** An object of the file: its string members; others read as absent. */
  datatype Record = NotAnObject | Record(g: Given)

  /** What skill_registry_persist writes for a skill: empty capabilities are left out. */
  function Written(s: Skill): Record {
    Record(Given(Some(s.name), Some(s.description), Some(s.kind), Some(s.body), if s.caps == [] then None else Some(s.caps)))
  }

  function Persisted(ss: seq<Skill>): (r: seq<Record>)
    ensures |r| == |ss|
  {
    seq(|ss|, i requires 0 <= i < |ss| => Written(ss[i]))
  }

  /** One object of skill_registry_load; a name already there is skipped. */
  function LoadedOne(ss: seq<Skill>, r: Record): seq<Skill> {
    if r.NotAnObject? || r.g.name.None? then ss
    else Registered(ss, r.g.(description := Some(OrEmpty(r.g.description)), body := Some(OrEmpty(r.g.body)), caps := Some(OrEmpty(r.g.caps))), false).0
  }

  function Loaded(ss: seq<Skill>, rs: seq<Record>): seq<Skill> {
    if |rs| == 0 then ss else LoadedOne(Loaded(ss, rs[..|rs| - 1]), rs[|rs| - 1])
  }

  /** One object more: with a name that is new and not empty, and a known or absent kind, it
      becomes a skill at the end; otherwise it is passed over. */
  lemma LoadOneIs(ss: seq<Skill>, r: Record)
    ensures if r.Record? && Acceptable(r.g) && Lookup(ss, r.g.name.value).None?
            then |LoadedOne(ss, r)| == |ss| + 1 && LoadedOne(ss, r)[..|ss|] == ss && IsCopy(LoadedOne(ss, r)[|ss|], r.g)
            else LoadedOne(ss, r) == ss
  {
  }

  lemma LoadWritten(ss: seq<Skill>, s: Skill)
    requires s.name != [] && s.kind != OtherKind && forall i :: 0 <= i < |ss| ==> ss[i].name != s.name
    ensures LoadedOne(ss, Written(s)) == ss + [s]
  {
    IndexOfFirst(ss, s.name, |ss|);
  }

  /** Writing a registry and reading it into an empty one gives the same skills in the
      same order. */
  lemma {:induction false} PersistThenLoad(ss: seq<Skill>)
    requires TableOk(ss)
    ensures Loaded([], Persisted(ss)) == ss
  {
    hide LoadedOne;
    if |ss| > 0 {
      var n := |ss| - 1;
      PersistThenLoad(ss[..n]);
      assert Persisted(ss)[..n] == Persisted(ss[..n]);
      LoadWritten(ss[..n], ss[n]);
    }
  }

  /** Reading a file into a registry that is not empty changes no skill that is there. */
  lemma {:induction false} LoadKeepsSkills(ss: seq<Skill>, rs: seq<Record>)
    requires TableOk(ss)
    ensures TableOk(Loaded(ss, rs)) && |ss| <= |Loaded(ss, rs)| && Loaded(ss, rs)[..|ss|] == ss
  {
    if |rs| > 0 {
      var mid := Loaded(ss, rs[..|rs| - 1]);
      LoadKeepsSkills(ss, rs[..|rs| - 1]);
      LoadOneKeeps(mid, rs[|rs| - 1]);
      assert Loaded(ss, rs)[..|mid|][..|ss|] == Loaded(ss, rs)[..|ss|];
    }
  }

  lemma LoadOneKeeps(ss: seq<Skill>, r: Record)
    requires TableOk(ss)
    ensures TableOk(LoadedOne(ss, r)) && |ss| <= |LoadedOne(ss, r)| && LoadedOne(ss, r)[..|ss|] == ss
  {
    if r.Record? && r.g.name.Some? {
      var g := r.g.(description := Some(OrEmpty(r.g.description)), body := Some(OrEmpty(r.g.body)), caps := Some(OrEmpty(r.g.caps)));
      RegisteredIsMap(ss, g, false, []);
    }
  }
}
