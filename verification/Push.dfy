/** A push from end to end: from the bytes of its pack to the refs. */
module Push {
  import opened Bits
  import opened Options
  import opened Graph
  import opened PackFormat
  import opened PackText
  import opened PackWriter
  import opened PackReader
  import opened RepositoryObject
  import opened Sweep
  import opened Transfer
  import Commands
  import Connectivity
  import PackCoherence
  import PktLine
  import Repack

  /** A name means one object, and that is what its bytes spell. */
  predicate Spells(u: map<Oid, Object>, names: map<Oid, Content>, parse: Parser) {
    forall n :: n in names ==> n in u && u[n] == parse(names[n])
  }

  /** The rows of the repository are those of the objects that are stored. */
  ghost predicate Stores(repository: Repository, sink: Sink, parse: Parser)
    reads repository, sink
  {
    repository.objects == GraphOf(sink.objects, parse)
  }

  /** Of the pack it is asked that a name means one object, here as everywhere. That what its objects call a blob is
      one is asked of all that was ever offered, by `Spells` and what the repository is trusted with. */
  ghost predicate NoCollision(
      names: map<Oid, Content>, hash: Hash, sha1: seq<byte> -> seq<byte>, before: Objects, pack: seq<byte>)
  {
    Repack.NamesKnown(names, hash, before, pack) && PackFormat.ReadPack(pack, before, hash, sha1) != Err(Collision)
  }

  /** What arrived is what its names mean. */
  lemma ArrivedIsKnown(
      u: map<Oid, Object>, names: map<Oid, Content>, parse: Parser, hash: Hash, before: Objects, pack: seq<byte>,
      n: nat, stored: Objects)
    requires Spells(u, names, parse) && Repack.Leaves(names, hash, before, pack, n, stored)
    ensures forall x :: x in GraphOf(stored, parse) ==> x in u && GraphOf(stored, parse)[x] == u[x]
  {
    hide ReadEntries;
    var after := ReadEntries(pack, HEADER_BYTES, n, before, map[], hash).value.0;
    forall x | x in stored
      ensures x in names && names[x] == ContentOf(stored[x])
    {
      assert x in after && after[x] == stored[x];
    }
  }

  /** What is new among the stored objects. */
  function NewIn(before: map<Oid, Object>, after: map<Oid, Object>): map<Oid, Object> {
    map x | x in after && x !in before :: after[x]
  }

  lemma NewIsAdded(before: Objects, after: Objects, parse: Parser)
    requires Extends(before, after)
    ensures var was, now := GraphOf(before, parse), GraphOf(after, parse);
      RepositoryObject.Added(was, NewIn(was, now)) == now
  {
  }

  /** Reads a pack into the store. What arrives stays, whatever becomes of it: all of it, or, of a pack that is
      refused, what its first entries gave or a part of that. */
  method Unpack(
      repository: Repository, sink: Sink, body: seq<seq<byte>>, ghost names: map<Oid, Content>, parse: Parser,
      hash: Hash, sha1: seq<byte> -> seq<byte>)
      returns (unpacked: Result<nat>, arrived: map<Oid, Object>)
    requires Stores(repository, sink, parse) && Spells(repository.u, names, parse)
    requires NoCollision(names, hash, sha1, sink.objects, Flatten(body))
    modifies sink
    ensures Extends(old(sink.objects), sink.objects)
    ensures PackEnds(Flatten(body), old(sink.objects), hash, sha1, unpacked, sink.objects)
    ensures forall x :: x in arrived ==> x in repository.u && arrived[x] == repository.u[x]
    ensures RepositoryObject.Added(repository.objects, arrived) == GraphOf(sink.objects, parse)
  {
    hide PackEnds, PackFormat.ReadPack, Repack.NamesKnown, Repack.Leaves, Extends, GraphOf, RepositoryObject.Added,
         Spells;
    ghost var before, pack := sink.objects, Flatten(body);
    unpacked := PackReader.ReadPack(body, sink, hash, sha1);
    arrived := NewIn(repository.objects, GraphOf(sink.objects, parse));
    Repack.ReaderLeaves(names, hash, sha1, before, pack, unpacked, sink.objects);
    ghost var n :| Repack.Leaves(names, hash, before, pack, n, sink.objects);
    ArrivedIsKnown(repository.u, names, parse, hash, before, pack, n, sink.objects);
    NewIsAdded(before, sink.objects, parse);
  }

  /** Reads the pack of a push, if it has one, from what follows its commands, and moves the refs. */
  method Receive(
      repository: Repository, sink: Sink, lines: PktLine.PktLineReader, ghost names: map<Oid, Content>, parse: Parser,
      hash: Hash, sha1: seq<byte> -> seq<byte>, commands: seq<Commands.Command>, atomic: bool)
      returns (statuses: seq<Option<Commands.Rejection>>, unpacked: Result<nat>, ghost actions: seq<Action>)
    requires repository.Valid() && Stores(repository, sink, parse) && lines.Valid()
    requires Spells(repository.u, names, parse) && NoCollision(names, hash, sha1, sink.objects, lines.Remaining())
    modifies repository, sink, lines
    ensures repository.Valid() && Stores(repository, sink, parse)
    ensures Runs(repository.u, old(repository.State()), actions, repository.State())
    ensures Extends(old(sink.objects), sink.objects)
    ensures if exists i :: 0 <= i < |commands| && commands[i].newOid.Some? then
              PackEnds(old(lines.Remaining()), old(sink.objects), hash, sha1, unpacked, sink.objects)
            else sink.objects == old(sink.objects) && unpacked == Ok(0)
    ensures |statuses| == |commands|
    ensures if unpacked.Err? then
              repository.refs == old(repository.refs) &&
              forall i :: 0 <= i < |commands| ==> statuses[i] == Some(Commands.Unpacker)
            else
              var store := StoreOf(repository.objects, repository.indexed);
              Reported(
                store, Connectivity.WalkEdges(store, repository.shallow), old(repository.refs), commands, atomic,
                statuses, repository.refs)
  {
    hide Runs, Reported, PackEnds, PackFormat.ReadPack, Repack.NamesKnown, Extends, GraphOf, RepositoryObject.Added,
         Spells;
    ExtendsItself(sink.objects);
    unpacked := Ok(0);
    var arrived: map<Oid, Object> := map[];
    if exists i :: 0 <= i < |commands| && commands[i].newOid.Some? {
      var body := lines.Rest();
      unpacked, arrived := Unpack(repository, sink, body, names, parse, hash, sha1);
    }
    statuses, actions := repository.ReceivePack(commands, atomic, arrived, unpacked.Ok?);
  }

  /** Reads the pack of an import, and installs its branch if everything that needs is there. */
  method ReceiveImport(
      repository: Repository, sink: Sink, body: seq<seq<byte>>, ghost names: map<Oid, Content>, parse: Parser,
      hash: Hash, sha1: seq<byte> -> seq<byte>, name: Name, tip: Oid, advertised: set<Oid>)
      returns (ok: bool, unpacked: Result<nat>, ghost actions: seq<Action>)
    requires repository.Valid() && Stores(repository, sink, parse) && Spells(repository.u, names, parse)
    requires NoCollision(names, hash, sha1, sink.objects, Flatten(body))
    modifies repository, sink
    ensures repository.Valid() && Stores(repository, sink, parse)
    ensures Runs(repository.u, old(repository.State()), actions, repository.State())
    ensures Extends(old(sink.objects), sink.objects)
    ensures PackEnds(Flatten(body), old(sink.objects), hash, sha1, unpacked, sink.objects)
    ensures var grafts := Grafts(repository.objects, advertised);
      var store := StoreOf(repository.objects, repository.indexed);
      && (ok <==> unpacked.Ok? && Connectivity.Complete(store, Connectivity.WalkEdges(store, grafts), {}, tip))
      && (ok ==> repository.refs == map[name := tip] && repository.shallow == grafts)
    ensures ok ==> forall x ::
      x in repository.shallow <==>
      x in advertised && x in repository.objects && KindOf(repository.objects[x]) == CommitKind
    ensures !ok ==> repository.State() == old(repository.State()).(present := repository.objects.Keys)
  {
    hide Runs, PackEnds, PackFormat.ReadPack, Repack.NamesKnown, Extends, GraphOf, RepositoryObject.Added, Spells,
         Connectivity.Complete, Grafts, Connectivity.WalkEdges;
    var arrived;
    unpacked, arrived := Unpack(repository, sink, body, names, parse, hash, sha1);
    ok, actions := repository.ImportBranch(name, tip, advertised, arrived, unpacked.Ok?);
  }

  // ---- A client that means well ------------------------------------------------------------------

  /** The graph of what a client has. */
  function GraphIn(source: Source, parse: Parser): map<Oid, Object> {
    map n | n in source :: parse(Content(source[n].kind, source[n].bytes))
  }

  /** The client sends objects that parse, and with each of them all that it names, up to what refs reach; and
      each of its commands is for a ref as it is, and for a tip that is sent or was there. */
  ghost predicate MeansWell(
      source: Source, parse: Parser, sent: set<Oid>, shallow: set<Oid>, refs: map<Name, Oid>,
      commands: seq<Commands.Command>)
  {
    && sent <= source.Keys && (forall x :: x in sent ==> Parses(GraphIn(source, parse)[x]))
    && Closed(VerifyEdges(GraphIn(source, parse), shallow), refs.Values, sent)
    && forall i :: 0 <= i < |commands| ==>
         && Commands.Admissible(commands, refs, i)
         && (commands[i].newOid.Some? ==> commands[i].newOid.value in sent + refs.Values)
  }

  lemma SentIsComplete(
      source: Source, parse: Parser, sent: set<Oid>, shallow: set<Oid>, tips: set<Oid>, stored: Objects,
      indexed: set<Oid>, tip: Oid)
    requires sent <= source.Keys && (forall x :: x in sent ==> Parses(GraphIn(source, parse)[x]))
    requires Closed(VerifyEdges(GraphIn(source, parse), shallow), tips, sent)
    requires sent <= stored.Keys && Same(source, stored) && tip in sent + tips
    requires Connectivity.ValidStore(StoreOf(GraphOf(stored, parse), indexed))
    ensures var store := StoreOf(GraphOf(stored, parse), indexed);
      Connectivity.Complete(store, Connectivity.WalkEdges(store, shallow), tips, tip)
  {
    hide Connectivity.WalkEdges, Connectivity.Conceals;
    var graph := GraphOf(stored, parse);
    var store := StoreOf(graph, indexed);
    var g := Connectivity.WalkEdges(store, shallow);
    assert forall x :: x in sent ==> graph[x] == GraphIn(source, parse)[x];
    forall x | x in sent
      ensures After(g, x) <= sent + tips
    {
      assert After(VerifyEdges(graph, shallow), x) == After(VerifyEdges(GraphIn(source, parse), shallow), x);
      forall y | y in After(g, x)
        ensures y in After(VerifyEdges(graph, shallow), x)
      {
        Connectivity.WalkLeavesOut(store, shallow, x, y);
      }
    }
    forall x | Reaches(g, tips, tip, x)
      ensures x in sent
    {
      StartsOutside(g, tips, tip, x);
      ClosedHolds(g, tips, sent, tip, x);
    }
  }

  lemma StartsOutside(g: Edges, stops: set<Oid>, from: Oid, to: Oid)
    requires Reaches(g, stops, from, to)
    ensures from !in stops
  {
  }

  /** Such a push goes through: its pack is taken in, unless there is no room, and every ref moves. */
  lemma HonestPushIsAccepted(
      source: Source, hash: Hash, parse: Parser, sha1: seq<byte> -> seq<byte>, order: seq<Oid>, es: seq<Emitted>,
      thin: bool, client: set<Oid>, before: Objects, unpacked: Result<nat>, stored: Objects, shallow: set<Oid>,
      indexed: set<Oid>, refs: map<Name, Oid>, commands: seq<Commands.Command>, atomic: bool,
      statuses: seq<Option<Commands.Rejection>>, after: map<Name, Oid>)
    requires CoherentSource(source, hash) && Planned(source, order, es, thin, client) && |es| < 0x1_0000_0000
    requires (forall x :: |sha1(x)| == 20) && Same(source, before) && (thin ==> client <= before.Keys)
    requires MeansWell(source, parse, Members(order), shallow, refs, commands)
    requires PackEnds(PackBody(es) + sha1(PackBody(es)), before, hash, sha1, unpacked, stored)
    requires unpacked != Err(StorageFailed)
    requires unpacked.Ok? ==>
      var store := StoreOf(GraphOf(stored, parse), indexed);
      && Connectivity.ValidStore(store)
      && Reported(store, Connectivity.WalkEdges(store, shallow), refs, commands, atomic, statuses, after)
    ensures unpacked.Ok? && stored.Keys == before.Keys + Members(order)
    ensures forall i :: 0 <= i < |commands| ==>
      statuses[i].None? && Commands.Current(after, commands[i].name) == commands[i].newOid
  {
    hide CoherentSource, Planned, PackBody, PackFormat.ReadPack, HoldsFirst, HoldsSome, BigEndian, Closed, VerifyEdges,
         Connectivity.WalkEdges, Connectivity.ValidStore, Connectivity.Complete, GraphIn, GraphOf,
         Commands.Admissible, Reaches;
    PackIsRead(source, hash, sha1, order, es, thin, client, before);
    var store := StoreOf(GraphOf(stored, parse), indexed);
    assert Same(source, stored) by { StillSame(source, order, before, stored); }
    forall i | 0 <= i < |commands| && commands[i].newOid.Some?
      ensures Connectivity.Complete(
        store, Connectivity.WalkEdges(store, shallow), refs.Values, commands[i].newOid.value)
    {
      SentIsComplete(
        source, parse, Members(order), shallow, refs.Values, stored, indexed, commands[i].newOid.value);
    }
  }

  lemma StillSame(source: Source, order: seq<Oid>, before: Objects, stored: Objects)
    requires Same(source, before) && stored.Keys == before.Keys + Members(order) && Extends(before, stored)
    requires forall n :: n in order && n in source ==>
      stored[n].kind == source[n].kind && stored[n].bytes == source[n].bytes
    ensures Same(source, stored)
  {
  }
}
