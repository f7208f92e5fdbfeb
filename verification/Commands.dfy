/** The part of a push that can be decided from its commands and the current refs. */
module Commands {
  import opened Options
  import opened Graph
  import opened Connectivity
  import opened Sweep

  /** One ref update: an absent old value creates, an absent new value deletes. `wellNamed`
      says whether the name is a legal ref name. */
  datatype Command = Command(oldOid: Option<Oid>, newOid: Option<Oid>, name: Name, wellNamed: bool)

  datatype Rejection =
    | FunnyRefname
    | Duplicate
    | Vanished
    | Stale
    | Exists
    | MissingObjects(oid: Oid)
    | Unpacker
    | AtomicFailed

  predicate IsDelete(c: Command) {
    c.newOid.None?
  }

  predicate IsCreate(c: Command) {
    c.oldOid.None?
  }

  predicate NamedBefore(commands: seq<Command>, i: nat, name: Name)
    requires i <= |commands|
  {
    exists j :: 0 <= j < i && commands[j].wellNamed && commands[j].name == name
  }

  function Current(refs: map<Name, Oid>, name: Name): Option<Oid> {
    if name in refs then Some(refs[name]) else None
  }

  /** The ref has this value, or, if that is none, there is no such ref. */
  predicate Has(refs: map<Name, Oid>, name: Name, value: Option<Oid>) {
    if value.None? then name !in refs else name in refs && refs[name] == value.value
  }

  /** No command before `i` that is well named names the same ref. */
  predicate IsFirst(commands: seq<Command>, i: nat)
    requires i < |commands|
  {
    forall j :: 0 <= j < i && commands[j].wellNamed ==> commands[j].name != commands[i].name
  }

  /** The reason that is given for a command, told from its fields and the refs. */
  predicate Deserves(commands: seq<Command>, refs: map<Name, Oid>, i: nat, reason: Option<Rejection>)
    requires i < |commands|
  {
    var c := commands[i];
    var first := c.wellNamed && IsFirst(commands, i);
    match reason
    case Some(FunnyRefname) => !c.wellNamed
    case Some(Duplicate) => c.wellNamed && !IsFirst(commands, i)
    case Some(Exists) => first && c.oldOid.None? && c.newOid.Some? && c.name in refs
    case Some(Vanished) => first && (c.oldOid.Some? || c.newOid.None?) && c.name !in refs
    case Some(Stale) => first && (c.oldOid.Some? || c.newOid.None?) && c.name in refs && c.oldOid != Some(refs[c.name])
    case Some(_) => false
    case None => first && Has(refs, c.name, c.oldOid) && (c.newOid.None? ==> c.name in refs)
  }

  /** A command may go ahead: it is the first for its ref, and what it says the ref holds is
      what the ref holds. A delete of nothing is never accepted. */
  predicate Admissible(commands: seq<Command>, refs: map<Name, Oid>, i: nat)
    requires i < |commands|
  {
    var c := commands[i];
    && c.wellNamed && !NamedBefore(commands, i, c.name)
    && c.oldOid == Current(refs, c.name)
    && (IsDelete(c) ==> c.oldOid.Some?)
  }

  /** The reason given when it may not. */
  function Reason(commands: seq<Command>, refs: map<Name, Oid>, i: nat): Rejection
    requires i < |commands|
  {
    var c := commands[i];
    if !c.wellNamed then FunnyRefname
    else if NamedBefore(commands, i, c.name) then Duplicate
    else if IsCreate(c) && !IsDelete(c) then Exists
    else if c.name !in refs then Vanished
    else Stale
  }

  function Screened(commands: seq<Command>, refs: map<Name, Oid>, i: nat): Option<Rejection>
    requires i < |commands|
  {
    if Admissible(commands, refs, i) then None else Some(Reason(commands, refs, i))
  }

  /** Exactly one reason is deserved, and it is the one given. */
  lemma ScreenedIff(commands: seq<Command>, refs: map<Name, Oid>, i: nat, reason: Option<Rejection>)
    requires i < |commands|
    ensures Screened(commands, refs, i) == reason <==> Deserves(commands, refs, i, reason)
  {
    assert NamedBefore(commands, i, commands[i].name) <==> !IsFirst(commands, i);
  }

  method ScreenCommands(commands: seq<Command>, refs: map<Name, Oid>) returns (reasons: seq<Option<Rejection>>)
    ensures |reasons| == |commands|
    ensures forall i :: 0 <= i < |commands| ==> reasons[i] == Screened(commands, refs, i)
    ensures forall i :: 0 <= i < |commands| ==> Deserves(commands, refs, i, reasons[i])
  {
    var seen: set<Name> := {};
    reasons := [];
    for i := 0 to |commands|
      invariant |reasons| == i && forall j :: 0 <= j < i ==> reasons[j] == Screened(commands, refs, j)
      invariant forall name :: name in seen <==> NamedBefore(commands, i, name)
    {
      var c := commands[i];
      var reason: Option<Rejection>;
      if !c.wellNamed {
        reason := Some(FunnyRefname);
      } else if c.name in seen {
        reason := Some(Duplicate);
      } else {
        seen := seen + {c.name};
        if c.newOid.None? {
          reason := if c.name !in refs then Some(Vanished)
                    else if c.oldOid == Some(refs[c.name]) then None else Some(Stale);
        } else if c.oldOid.None? {
          reason := if c.name !in refs then None else Some(Exists);
        } else if c.name !in refs {
          reason := Some(Vanished);
        } else {
          reason := if c.oldOid == Some(refs[c.name]) then None else Some(Stale);
        }
      }
      reasons := reasons + [reason];
    }
    forall i | 0 <= i < |commands|
      ensures Deserves(commands, refs, i, reasons[i])
    {
      ScreenedIff(commands, refs, i, reasons[i]);
    }
  }

  /** What happens to a command: it is refused for what it says, or for an object that its
      new value needs and the repository does not hold, or it goes ahead. */
  ghost predicate Judged(
      s: Store, g: Edges, tips: set<Oid>, commands: seq<Command>, refs: map<Name, Oid>, i: nat,
      status: Option<Rejection>)
    requires i < |commands|
  {
    var c := commands[i];
    if !Admissible(commands, refs, i) then status == Some(Reason(commands, refs, i))
    else if IsDelete(c) || Complete(s, g, tips, c.newOid.value) then status.None?
    else
      && status.Some? && status.value.MissingObjects?
      && Reaches(g, tips, c.newOid.value, status.value.oid) && !Holds(s, status.value.oid)
  }

  /** What goes ahead found the ref as it said, and a delete found something. */
  lemma AcceptedIsCurrent(
      s: Store, g: Edges, tips: set<Oid>, commands: seq<Command>, refs: map<Name, Oid>, i: nat)
    requires i < |commands| && Judged(s, g, tips, commands, refs, i, None)
    ensures Deserves(commands, refs, i, None)
  {
    hide Complete, Reaches, Deserves;
    ScreenedIff(commands, refs, i, None);
  }

  // ---- Applying --------------------------------------------------------------------------------

  /** Ref updates carried out one after another, as one map. */
  function AsMap(updates: seq<Command>): map<Name, Option<Oid>> {
    if updates == [] then map[]
    else
      var last := updates[|updates| - 1];
      AsMap(updates[..|updates| - 1])[last.name := last.newOid]
  }

  function Accepted(commands: seq<Command>, statuses: seq<Option<Rejection>>): seq<Command>
    requires |statuses| == |commands|
  {
    if commands == [] then []
    else
      var n := |commands| - 1;
      Accepted(commands[..n], statuses[..n]) + if statuses[n].None? then [commands[n]] else []
  }

  lemma AsMapAppend(updates: seq<Command>, c: Command)
    ensures AsMap(updates + [c]) == AsMap(updates)[c.name := c.newOid]
  {
    assert (updates + [c])[..|updates|] == updates;
  }

  /** The accepted commands are for different refs. */
  ghost predicate OnceEach(commands: seq<Command>, statuses: seq<Option<Rejection>>)
    requires |statuses| == |commands|
  {
    forall i, j :: 0 <= i < j < |commands| && statuses[i].None? && statuses[j].None? ==>
      commands[i].name != commands[j].name
  }

  ghost predicate NamedBy(commands: seq<Command>, statuses: seq<Option<Rejection>>, name: Name)
    requires |statuses| == |commands|
  {
    exists i :: 0 <= i < |commands| && statuses[i].None? && commands[i].name == name
  }

  /** So each of them has its say, whatever the order. */
  lemma {:induction false} AcceptedAsMap(commands: seq<Command>, statuses: seq<Option<Rejection>>, name: Name)
    requires |statuses| == |commands| && OnceEach(commands, statuses)
    ensures name in AsMap(Accepted(commands, statuses)) <==> NamedBy(commands, statuses, name)
    ensures forall i :: 0 <= i < |commands| && statuses[i].None? && commands[i].name == name ==>
      name in AsMap(Accepted(commands, statuses)) && AsMap(Accepted(commands, statuses))[name] == commands[i].newOid
  {
    if commands != [] {
      var n := |commands| - 1;
      var cs, ss := commands[..n], statuses[..n];
      AcceptedAsMap(cs, ss, name);
      assert NamedBy(cs, ss, name) ==> NamedBy(commands, statuses, name) by {
        if NamedBy(cs, ss, name) {
          var i :| 0 <= i < n && ss[i].None? && cs[i].name == name;
          assert statuses[i].None? && commands[i].name == name;
        }
      }
      var before, after := AsMap(Accepted(cs, ss)), AsMap(Accepted(commands, statuses));
      assert Accepted(cs, ss) + [] == Accepted(cs, ss);
      if statuses[n].None? {
        AsMapAppend(Accepted(cs, ss), commands[n]);
        assert after == before[commands[n].name := commands[n].newOid];
      } else {
        assert after == before;
      }
      forall i | 0 <= i < n && statuses[i].None? && commands[i].name == name
        ensures NamedBy(cs, ss, name)
      {
        assert ss[i].None? && cs[i].name == name;
      }
    }
  }
}
