/**
  The registry as an object whose maps are updated in place. It remembers, for the proof only, how it started and the
  steps it has taken; `Valid` says its fields are what that history leads to, so what holds of every run holds of it.
  */
module PortRegistryObject {
  import opened Bytes
  import opened PortDirectory
  import opened PortRegistry

  class Registrar {
    const ours: I32
    var sourceCache: map<PortKey, Port>
    var destinationCache: map<PortKey, Port>
    var connections: set<PortKey>
    var destinationConnections: map<PortKey, bool>
    var vdestRecv: set<I32>
    var vdestPorts: map<nat, I32>
    var vsrcSend: map<nat, I32>
    var sourceSubs: seq<Subscriber>
    var destinationSubs: seq<Subscriber>
    var sourceJoined: nat // how many subscriptions there have been; it stands for the identity of a channel
    var destinationJoined: nat
    var notices: seq<Notice>
    var sourceLog: seq<Change> // all changes announced; the source keeps none of them
    var destinationLog: seq<Change>
    ghost var start: Registry
    ghost var history: seq<PortRegistry.Step>

    ghost function State(): Registry
      reads this
    {
      Registry(Directory(sourceCache, sourceLog, sourceSubs, sourceJoined),
               Directory(destinationCache, destinationLog, destinationSubs, destinationJoined),
               connections, destinationConnections, vdestRecv, vdestPorts, vsrcSend, notices)
    }

    ghost predicate Valid()
      reads this
    {
      Initial(ours, start) && State() == Execute(ours, start, history)
    }

    /** What every history guarantees: announced changes agree with the caches, and virtual ports are in order. */
    lemma Guarantees()
      requires Valid()
      ensures Announced(State(), Listing(start.sources.cache), Listing(start.destinations.cache))
      ensures VirtualPortsOk(ours, State())
    {
      hide Execute, Announced, VirtualPortsOk;
      StartAnnounced(ours, start);
      RunAnnounced(ours, start, history, Listing(start.sources.cache), Listing(start.destinations.cache));
      RunVirtualPorts(ours, start, history);
    }

    /** A live virtual destination receives. */
    lemma Receiving(vid: nat)
      requires Valid()
      ensures vid in vdestPorts ==> vdestPorts[vid] in vdestRecv
    {
      hide Execute, Announced;
      Guarantees();
      assert vid in vdestPorts ==> vdestPorts[vid] in vdestPorts.Values;
    }

    /** Which links a key has, by history alone. */
    lemma Links(key: PortKey)
      requires Valid()
      ensures forall link: Link :: Held(link, State(), key) <==> OpenSince(link, ours, start, history, key)
    {
      LinkHistory(SourceLink, ours, start, history, key);
      LinkHistory(RecordedLink, ours, start, history, key);
      LinkHistory(LiveLink, ours, start, history, key);
    }

    constructor (ours: I32, sources: map<PortKey, Port>, destinations: map<PortKey, Port>)
      requires forall k <- sources :: k.client != ours && sources[k].id == KeyToId(k)
      requires forall k <- destinations :: k.client != ours && destinations[k].id == KeyToId(k)
      ensures Valid() && this.ours == ours && history == []
      ensures sourceCache == sources && destinationCache == destinations
    {
      this.ours := ours;
      sourceCache := sources;
      destinationCache := destinations;
      connections := {};
      destinationConnections := map[];
      vdestRecv := {};
      vdestPorts := map[];
      vsrcSend := map[];
      sourceSubs := [];
      destinationSubs := [];
      sourceJoined := 0;
      destinationJoined := 0;
      notices := [];
      sourceLog := [];
      destinationLog := [];
      start := Registry(Directory(sources, [], [], 0), Directory(destinations, [], [], 0),
                        {}, map[], {}, map[], map[], []);
      history := [];
    }

    /** Notes a step whose effect the fields already show. */
    ghost method Note(before: Registry, step: PortRegistry.Step)
      requires Initial(ours, start) && before == Execute(ours, start, history) && State() == Next(ours, before, step)
      modifies this`history
      ensures Valid() && history == old(history) + [step]
    {
      ExecuteSnoc(ours, start, history, step);
      history := history + [step];
    }

    // ---- Caches -------------------------------------------------------------------------------

    method AddSource(key: PortKey, port: Port)
      modifies this`sourceCache, this`sourceSubs, this`sourceLog
      ensures sourceCache == old(sourceCache)[key := port]
      ensures sourceLog == old(sourceLog) + [Added(port)]
      ensures Told(old(sourceSubs), sourceSubs, Added(port))
      ensures State() == old(State()).(sources := Add(old(State()).sources, key, port))
    {
      sourceCache := sourceCache[key := port];
      sourceSubs := PruneSend(sourceSubs, Added(port));
      sourceLog := sourceLog + [Added(port)];
    }

    method AddDestination(key: PortKey, port: Port)
      modifies this`destinationCache, this`destinationSubs, this`destinationLog
      ensures destinationCache == old(destinationCache)[key := port]
      ensures destinationLog == old(destinationLog) + [Added(port)]
      ensures Told(old(destinationSubs), destinationSubs, Added(port))
      ensures State() == old(State()).(destinations := Add(old(State()).destinations, key, port))
    {
      destinationCache := destinationCache[key := port];
      destinationSubs := PruneSend(destinationSubs, Added(port));
      destinationLog := destinationLog + [Added(port)];
    }

    method DropSource(key: PortKey)
      modifies this`sourceCache, this`notices, this`sourceSubs, this`sourceLog
      ensures Delists(old(State()).sources, State().sources, key)
      ensures if key in old(sourceCache) then Told(old(sourceSubs), sourceSubs, Removed(old(sourceCache[key])))
              else sourceSubs == old(sourceSubs)
      ensures notices
              == old(notices) + if key in old(sourceCache) && key in connections then [SourceGone(key)] else []
      ensures State() == RemoveSource(old(State()), key)
    {
      hide Told, Delists, Deliver;
      RemoveDelists(State().sources, key);
      if key in sourceCache {
        var port := sourceCache[key];
        sourceCache := sourceCache - {key};
        if key in connections {
          notices := notices + [SourceGone(key)];
        }
        sourceSubs := PruneSend(sourceSubs, Removed(port));
        sourceLog := sourceLog + [Removed(port)];
      }
    }

    method DropDestination(key: PortKey)
      modifies this`destinationCache, this`destinationConnections, this`destinationSubs, this`destinationLog
      ensures Delists(old(State()).destinations, State().destinations, key)
      ensures if key in old(destinationCache)
              then Told(old(destinationSubs), destinationSubs, Removed(old(destinationCache[key])))
              else destinationSubs == old(destinationSubs)
      ensures State() == RemoveDestination(old(State()), key)
    {
      hide Told, Delists, Deliver;
      RemoveDelists(State().destinations, key);
      if key in destinationCache {
        var port := destinationCache[key];
        destinationCache := destinationCache - {key};
        if key in destinationConnections {
          destinationConnections := destinationConnections[key := true];
        }
        destinationSubs := PruneSend(destinationSubs, Removed(port));
        destinationLog := destinationLog + [Removed(port)];
      }
    }

    // ---- Announcements ------------------------------------------------------------------------

    method HandlePortStart(key: PortKey, info: Option<PortInfo>)
      requires Valid()
      modifies this
      ensures Valid() && start == old(start) && history == old(history) + [PortStart(key, info)]
      ensures key.client == 0 || key.client == ours || info.None? ==> State() == old(State())
      ensures key.client != 0 && key.client != ours && info.Some? ==>
                && (if info.value.isSource then Lists(old(State()).sources, State().sources, key, info.value.name)
                    else State().sources == old(State()).sources)
                && (if info.value.isDestination
                    then Lists(old(State()).destinations, State().destinations, key, info.value.name)
                    else State().destinations == old(State()).destinations)
    {
      hide Execute, Initial, Add, FromAlsa, Told, Lists;
      ghost var before := State();
      if info.Some? {
        AddLists(before.sources, key, info.value.name);
        AddLists(before.destinations, key, info.value.name);
      }
      if key.client != 0 && key.client != ours {
        match info {
          case Some(found) =>
            if found.isSource {
              AddSource(key, FromAlsa(key, found.name));
            }
            if found.isDestination {
              AddDestination(key, FromAlsa(key, found.name));
            }
          case None =>
        }
      }
      Note(before, PortStart(key, info));
    }

    method HandlePortExit(key: PortKey)
      requires Valid()
      modifies this
      ensures Valid() && start == old(start) && history == old(history) + [PortExit(key)]
      ensures Delists(old(State()).sources, State().sources, key)
      ensures Delists(old(State()).destinations, State().destinations, key)
    {
      hide Execute, Initial, Remove, Told, Delists;
      ghost var before := State();
      DropSource(key);
      DropDestination(key);
      Note(before, PortExit(key));
    }

    /** Collects the keys of a client, in the arbitrary order of the map. */
    method ClientKeys(cache: map<PortKey, Port>, client: I32) returns (keys: seq<PortKey>)
      ensures Enumerates(keys, cache, client)
    {
      keys := [];
      var rest := cache.Keys;
      while rest != {}
        invariant rest <= cache.Keys
        invariant forall k :: k in keys <==> k in cache.Keys - rest && k.client == client
        invariant forall i, j | 0 <= i < j < |keys| :: keys[i] != keys[j]
        decreases rest
      {
        var key :| key in rest;
        rest := rest - {key};
        if key.client == client {
          keys := keys + [key];
        }
      }
    }

    /** The first loop of a client's departure. */
    method LoseSources(keys: seq<PortKey>)
      requires Valid()
      modifies this`sourceCache, this`notices, this`sourceSubs, this`sourceLog, this`history
      ensures Valid() && history == old(history) + SourcesLeft(keys)
    {
      hide Execute, RemoveSource, Initial;
      ghost var h0 := history;
      var i := 0;
      while i < |keys|
        invariant 0 <= i <= |keys|
        invariant Valid()
        invariant history == h0 + SourcesLeft(keys[..i])
      {
        ghost var before := State();
        DropSource(keys[i]);
        Note(before, SourceLeft(keys[i]));
        assert SourcesLeft(keys[..i + 1]) == SourcesLeft(keys[..i]) + [SourceLeft(keys[i])];
        i := i + 1;
      }
      assert keys[..i] == keys;
    }

    /** The second loop. */
    method LoseDestinations(keys: seq<PortKey>)
      requires Valid()
      modifies this`destinationCache, this`destinationConnections, this`destinationSubs, this`destinationLog
      modifies this`history
      ensures Valid() && history == old(history) + DestinationsLeft(keys)
    {
      hide Execute, RemoveDestination, Initial;
      ghost var h0 := history;
      var i := 0;
      while i < |keys|
        invariant 0 <= i <= |keys|
        invariant Valid()
        invariant history == h0 + DestinationsLeft(keys[..i])
      {
        ghost var before := State();
        DropDestination(keys[i]);
        Note(before, DestinationLeft(keys[i]));
        assert DestinationsLeft(keys[..i + 1]) == DestinationsLeft(keys[..i]) + [DestinationLeft(keys[i])];
        i := i + 1;
      }
      assert keys[..i] == keys;
    }

    /** A client's departure: every cached key of that client leaves, in the orders the maps yield, and no other. */
    method HandleClientExit(client: I32) returns (ghost sourceKeys: seq<PortKey>, ghost destinationKeys: seq<PortKey>)
      requires Valid()
      modifies this
      ensures Valid() && start == old(start)
      ensures Enumerates(sourceKeys, old(sourceCache), client)
      ensures Enumerates(destinationKeys, old(destinationCache), client)
      ensures history == old(history) + Departure(sourceKeys, destinationKeys)
      ensures sourceCache == map k | k in old(sourceCache) && k.client != client :: old(sourceCache)[k]
      ensures sourceLog == old(sourceLog) + Removals(old(sourceCache), sourceKeys)
      ensures destinationLog == old(destinationLog) + Removals(old(destinationCache), destinationKeys)
      ensures destinationCache == map k | k in old(destinationCache) && k.client != client :: old(destinationCache)[k]
    {
      hide Execute, Initial;
      ghost var s0, h0 := State(), history;
      var sources := ClientKeys(sourceCache, client);
      sourceKeys := sources;
      LoseSources(sources);
      var destinations := ClientKeys(destinationCache, client);
      destinationKeys := destinations;
      LoseDestinations(destinations);
      assert history == h0 + Departure(sources, destinations);
      ExecuteConcat(ours, start, h0, Departure(sources, destinations));
      FilterAll(x => !ChangesSubscribers(x), Departure(sources, destinations));
      ClientExitExact(ours, s0, client, sources, destinations, Departure(sources, destinations));
    }

    // ---- Commands -----------------------------------------------------------------------------

    /** Refused as already connected exactly when an earlier connect is still open; otherwise as the kernel answers. */
    method HandleConnect(id: U64, answer: Answer) returns (r: Result<(), IoError>)
      requires Valid()
      modifies this`connections, this`history
      ensures Valid() && history == old(history) + [ConnectSource(id, answer)]
      ensures r == Err(AlreadyConnected) <==> old(OpenSince(SourceLink, ours, start, history, PortToKey(id)))
      ensures r != Err(AlreadyConnected) ==>
                && (r.Ok? <==> answer.Works?)
                && (r == Err(PortNotFound) <==> answer.NoSuchPort? || answer.LacksCapability?)
                && (forall code :: r == Err(Platform(code)) <==> answer == SubscribeFailed(code))
      ensures r.Err? ==> State() == old(State())
      ensures r.Ok? ==> OpenSince(SourceLink, ours, start, history, PortToKey(id))
    {
      var key := PortToKey(id);
      ghost var before := State();
      Links(key);
      r := if key in connections then Err(AlreadyConnected) else KernelReply(answer);
      if r.Ok? {
        connections := connections + {key};
      }
      Note(before, ConnectSource(id, answer));
      Links(key);
    }

    /** Tells the kernel to unsubscribe exactly when a connection was open. */
    method HandleDisconnect(id: U64) returns (unsubscribe: bool)
      requires Valid()
      modifies this`connections, this`history
      ensures Valid() && history == old(history) + [PortRegistry.Step.Disconnect(id)]
      ensures unsubscribe <==> old(OpenSince(SourceLink, ours, start, history, PortToKey(id)))
      ensures !OpenSince(SourceLink, ours, start, history, PortToKey(id))
    {
      var key := PortToKey(id);
      ghost var before := State();
      Links(key);
      unsubscribe := key in connections;
      connections := connections - {key};
      Note(before, PortRegistry.Step.Disconnect(id));
      Links(key);
    }

    /** Refused as already connected also when the recorded connection has lost its port. */
    method HandleConnectDestination(id: U64, answer: Answer) returns (r: Result<(), IoError>)
      requires Valid()
      modifies this`destinationConnections, this`history
      ensures Valid() && history == old(history) + [ConnectDestination(id, answer)]
      ensures r == Err(AlreadyConnected) <==> old(OpenSince(RecordedLink, ours, start, history, PortToKey(id)))
      ensures r != Err(AlreadyConnected) ==>
                && (r.Ok? <==> answer.Works?)
                && (r == Err(PortNotFound) <==> answer.NoSuchPort? || answer.LacksCapability?)
                && (forall code :: r == Err(Platform(code)) <==> answer == SubscribeFailed(code))
      ensures r.Err? ==> State() == old(State())
      ensures r.Ok? ==> OpenSince(LiveLink, ours, start, history, PortToKey(id))
    {
      var key := PortToKey(id);
      ghost var before := State();
      Links(key);
      r := if key in destinationConnections then Err(AlreadyConnected) else KernelReply(answer);
      if r.Ok? {
        destinationConnections := destinationConnections[key := false];
      }
      Note(before, ConnectDestination(id, answer));
      Links(key);
    }

    method HandleDisconnectDestination(id: U64) returns (unsubscribe: bool)
      requires Valid()
      modifies this`destinationConnections, this`history
      ensures Valid() && history == old(history) + [DisconnectDestination(id)]
      ensures unsubscribe <==> old(OpenSince(RecordedLink, ours, start, history, PortToKey(id)))
      ensures !OpenSince(RecordedLink, ours, start, history, PortToKey(id))
    {
      var key := PortToKey(id);
      ghost var before := State();
      Links(key);
      unsubscribe := key in destinationConnections;
      destinationConnections := destinationConnections - {key};
      Note(before, DisconnectDestination(id));
      Links(key);
    }

    /** The id returned leads back to the port the kernel created; a kernel error is passed on and changes nothing. */
    method HandleCreateVirtualSource(vid: nat, name: string, created: Result<I32, int>)
      returns (r: Result<U64, IoError>)
      requires Valid() && Possible(State(), CreateVirtualSource(vid, name, created))
      modifies this
      ensures Valid() && start == old(start) && history == old(history) + [CreateVirtualSource(vid, name, created)]
      ensures created.Ok? ==>
                && r.Ok? && PortToKey(r.value) == PortKey(ours, created.value)
                && Lists(old(State()).sources, State().sources, PortToKey(r.value), name)
                && sourceCache[PortToKey(r.value)].id == r.value
                && vsrcSend == old(vsrcSend)[vid := created.value]
      ensures created.Err? ==> r == Err(Platform(created.error)) && State() == old(State())
    {
      hide Execute, Initial, Add, KeyToId, PortToKey, Told, Lists;
      ghost var before := State();
      match created {
        case Ok(port) =>
          var key := PortKey(ours, port);
          var source := FromAlsa(key, name);
          KeyIdRoundTrip(key, 0);
          AddLists(before.sources, key, name);
          r := Ok(source.id);
          AddSource(key, source);
          vsrcSend := vsrcSend[vid := port];
        case Err(code) => r := Err(Platform(code));
      }
      Note(before, CreateVirtualSource(vid, name, created));
    }

    method HandleDestroyVirtualSource(vid: nat)
      requires Valid()
      modifies this
      ensures Valid() && start == old(start) && history == old(history) + [DestroyVirtualSource(vid)]
      ensures vid !in old(vsrcSend) ==> State() == old(State())
      ensures vid in old(vsrcSend) ==>
                && vsrcSend == old(vsrcSend) - {vid}
                && Delists(old(State()).sources, State().sources, PortKey(ours, old(vsrcSend[vid])))
    {
      hide Execute, Initial, Remove, Told, Delists;
      ghost var before := State();
      if vid in vsrcSend {
        var port := vsrcSend[vid];
        vsrcSend := vsrcSend - {vid};
        DropSource(PortKey(ours, port));
      }
      Note(before, DestroyVirtualSource(vid));
    }

    /** A requested unique id is refused before the kernel is asked for anything. */
    method HandleCreateVirtualDestination(vid: nat, name: string, uniqueId: Option<nat>, created: Result<I32, int>)
      returns (r: Result<U64, IoError>)
      requires Valid() && Possible(State(), CreateVirtualDestination(vid, name, uniqueId, created))
      modifies this
      ensures Valid() && start == old(start)
      ensures history == old(history) + [CreateVirtualDestination(vid, name, uniqueId, created)]
      ensures uniqueId.Some? ==> r == Err(Unsupported) && State() == old(State())
      ensures uniqueId.None? && created.Err? ==> r == Err(Platform(created.error)) && State() == old(State())
      ensures uniqueId.None? && created.Ok? ==>
                && r.Ok? && PortToKey(r.value) == PortKey(ours, created.value)
                && Lists(old(State()).destinations, State().destinations, PortToKey(r.value), name)
                && destinationCache[PortToKey(r.value)].id == r.value
                && vdestPorts == old(vdestPorts)[vid := created.value]
                && vdestRecv == old(vdestRecv) + {created.value}
    {
      hide Execute, Initial, Add, KeyToId, PortToKey, Told, Lists;
      ghost var before := State();
      match (uniqueId, created) {
        case (Some(_), _) => r := Err(Unsupported);
        case (None, Err(code)) => r := Err(Platform(code));
        case (None, Ok(port)) =>
          var key := PortKey(ours, port);
          var destination := FromAlsa(key, name);
          KeyIdRoundTrip(key, 0);
          AddLists(before.destinations, key, name);
          r := Ok(destination.id);
          AddDestination(key, destination);
          vdestRecv := vdestRecv + {port};
          vdestPorts := vdestPorts[vid := port];
      }
      Note(before, CreateVirtualDestination(vid, name, uniqueId, created));
    }

    method HandleDestroyVirtualDestination(vid: nat)
      requires Valid()
      modifies this
      ensures Valid() && start == old(start) && history == old(history) + [DestroyVirtualDestination(vid)]
      ensures vid !in old(vdestPorts) ==> State() == old(State())
      ensures vid in old(vdestPorts) ==>
                && vdestPorts == old(vdestPorts) - {vid}
                && vdestRecv == old(vdestRecv) - {old(vdestPorts[vid])}
                && notices == old(notices) + [DestinationDestroyed(old(vdestPorts[vid]))]
                && Delists(old(State()).destinations, State().destinations, PortKey(ours, old(vdestPorts[vid])))
    {
      hide Execute, Initial, Remove, Told, Delists, KeyToId, PortToKey;
      ghost var before := State();
      Receiving(vid);
      if vid in vdestPorts {
        var port := vdestPorts[vid];
        vdestPorts := vdestPorts - {vid};
        if port in vdestRecv {
          vdestRecv := vdestRecv - {port};
          notices := notices + [DestinationDestroyed(port)];
        }
        DropDestination(PortKey(ours, port));
      }
      Note(before, DestroyVirtualDestination(vid));
    }

    /**
      Whether a send may go out, by history alone: yes when the last connect is later than the last disconnect and the
      last time the port left; port not found when nothing is recorded; disconnected otherwise.
      */
    method ResolveOutput(key: PortKey) returns (r: Result<(), IoError>)
      requires Valid()
      ensures r.Ok? <==> OpenSince(LiveLink, ours, start, history, key)
      ensures r == Err(PortNotFound) <==> !OpenSince(RecordedLink, ours, start, history, key)
      ensures r.Ok? || r == Err(PortNotFound) || r == Err(PortDisconnected)
    {
      Links(key);
      if key !in destinationConnections {
        return Err(PortNotFound);
      } else if destinationConnections[key] {
        return Err(PortDisconnected);
      } else {
        return Ok(());
      }
    }

    // ---- Client threads -----------------------------------------------------------------------

    /** A new channel that is told of every later change, and of none before. */
    method SubscribeToSources()
      requires Valid()
      modifies this`sourceSubs, this`sourceJoined, this`history
      ensures Valid() && history == old(history) + [Joins(SourceSide)]
      ensures sourceSubs == old(sourceSubs) + [Subscriber(old(sourceJoined), true, |sourceLog|, [])]
      ensures sourceJoined == old(sourceJoined) + 1
    {
      hide Execute, Initial;
      ghost var before := State();
      sourceSubs := sourceSubs + [Subscriber(sourceJoined, true, |sourceLog|, [])];
      sourceJoined := sourceJoined + 1;
      Note(before, Joins(SourceSide));
    }

    /** The receiver of a subscription is dropped, so that its channel accepts nothing any more. */
    method DropSourceReceiver(id: nat)
      requires Valid()
      modifies this`sourceSubs, this`history
      ensures Valid() && history == old(history) + [HangsUp(SourceSide, id)]
      ensures |sourceSubs| == |old(sourceSubs)|
      ensures forall i | 0 <= i < |sourceSubs| ::
                var was := old(sourceSubs)[i];
                sourceSubs[i] == was.(open := was.open && was.id != id)
    {
      hide Execute, Initial;
      ghost var before := State();
      sourceSubs := Closed(sourceSubs, id);
      Note(before, HangsUp(SourceSide, id));
    }

    /** A new channel that is told of every later change, and of none before. */
    method SubscribeToDestinations()
      requires Valid()
      modifies this`destinationSubs, this`destinationJoined, this`history
      ensures Valid() && history == old(history) + [Joins(DestinationSide)]
      ensures destinationSubs == old(destinationSubs) + [Subscriber(old(destinationJoined), true, |destinationLog|, [])]
      ensures destinationJoined == old(destinationJoined) + 1
    {
      hide Execute, Initial;
      ghost var before := State();
      destinationSubs := destinationSubs + [Subscriber(destinationJoined, true, |destinationLog|, [])];
      destinationJoined := destinationJoined + 1;
      Note(before, Joins(DestinationSide));
    }

    /** The receiver of a subscription is dropped, so that its channel accepts nothing any more. */
    method DropDestinationReceiver(id: nat)
      requires Valid()
      modifies this`destinationSubs, this`history
      ensures Valid() && history == old(history) + [HangsUp(DestinationSide, id)]
      ensures |destinationSubs| == |old(destinationSubs)|
      ensures forall i | 0 <= i < |destinationSubs| ::
                var was := old(destinationSubs)[i];
                destinationSubs[i] == was.(open := was.open && was.id != id)
    {
      hide Execute, Initial;
      ghost var before := State();
      destinationSubs := Closed(destinationSubs, id);
      Note(before, HangsUp(DestinationSide, id));
    }
  }

  /** How the kernel's answer to a connection request is passed on. */
  function KernelReply(answer: Answer): Result<(), IoError> {
    match answer
    case NoSuchPort => Err(PortNotFound)
    case LacksCapability => Err(PortNotFound)
    case SubscribeFailed(code) => Err(Platform(code))
    case Works => Ok(())
  }
}
