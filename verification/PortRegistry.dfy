/**
  The ALSA port registry as a state machine: caches, connections and virtual ports, driven by client commands and
  sequencer announcements. What the kernel answers is part of each step.
  */
module PortRegistry {
  import opened Bytes
  import opened PortDirectory

  /** A call of `lifecycle_error`; whether the stream's error queue has room for it is that call's matter. */
  datatype Notice = SourceGone(key: PortKey) | DestinationDestroyed(port: I32)

  datatype Registry = Registry(
    sources: Directory,
    destinations: Directory,
    connections: set<PortKey>,
    destinationConnections: map<PortKey, bool>, // key -> disconnected
    vdestRecv: set<I32>,
    vdestPorts: map<nat, I32>, // virtual id -> port
    vsrcSend: map<nat, I32>, // virtual id -> port
    notices: seq<Notice>)

  datatype PortInfo = PortInfo(name: string, isSource: bool, isDestination: bool)

  /** The kernel's answer to a connection request. */
  datatype Answer = NoSuchPort | LacksCapability | SubscribeFailed(code: int) | Works

  /** The errors a command is answered with; `Platform` carries the kernel's own. */
  datatype IoError = PortNotFound | PortDisconnected | AlreadyConnected | Unsupported | Platform(code: int)

  datatype Side = SourceSide | DestinationSide

  function Of(s: Registry, side: Side): Directory {
    if side.SourceSide? then s.sources else s.destinations
  }

  /**
    Commands and announcements, run by the backend thread, and what client threads do to the subscriber lists between
    them. A client's departure is several removals, each of which takes the subscriber lock anew, so it is several
    steps. Every other step changes each list at most once: joining in the middle of one is joining before or after.
    */
  datatype Step =
    | PortStart(key: PortKey, info: Option<PortInfo>)
    | PortExit(key: PortKey)
    | SourceLeft(key: PortKey) // one removal of a departing client's source
    | DestinationLeft(key: PortKey) // and of a destination
    | ConnectSource(id: U64, answer: Answer)
    | Disconnect(id: U64)
    | ConnectDestination(id: U64, answer: Answer)
    | DisconnectDestination(id: U64)
    | CreateVirtualSource(vid: nat, name: string, created: Result<I32, int>)
    | DestroyVirtualSource(vid: nat)
    | CreateVirtualDestination(vid: nat, name: string, uniqueId: Option<nat>, created: Result<I32, int>)
    | DestroyVirtualDestination(vid: nat)
    | Joins(side: Side) // a client thread subscribes
    | HangsUp(side: Side, subscription: nat) // and drops its receiver

  // ---- Steps ----------------------------------------------------------------------------------

  predicate UnusedPort(s: Registry, port: I32) {
    port !in s.vsrcSend.Values && port !in s.vdestPorts.Values
  }

  predicate FreshId(s: Registry, vid: nat) {
    vid !in s.vsrcSend && vid !in s.vdestPorts
  }

  /** What the environment guarantees of a step: virtual ids are new, created ports are not in use. */
  ghost predicate Possible(s: Registry, step: Step) {
    match step
    case CreateVirtualSource(vid, _, created) => FreshId(s, vid) && (created.Ok? ==> UnusedPort(s, created.value))
    case CreateVirtualDestination(vid, _, _, created) =>
      FreshId(s, vid) && (created.Ok? ==> UnusedPort(s, created.value))
    case _ => true
  }

  function RemoveSource(s: Registry, key: PortKey): Registry {
    s.(sources := Remove(s.sources, key),
       notices := s.notices + if key in s.sources.cache && key in s.connections then [SourceGone(key)] else [])
  }

  function RemoveDestination(s: Registry, key: PortKey): Registry {
    s.(destinations := Remove(s.destinations, key),
       destinationConnections :=
         if key in s.destinations.cache && key in s.destinationConnections then s.destinationConnections[key := true]
         else s.destinationConnections)
  }

  function Started(ours: I32, s: Registry, key: PortKey, info: Option<PortInfo>): Registry {
    if key.client == 0 || key.client == ours || info.None? then s
    else
      var port := FromAlsa(key, info.value.name);
      s.(sources := if info.value.isSource then Add(s.sources, key, port) else s.sources,
         destinations := if info.value.isDestination then Add(s.destinations, key, port) else s.destinations)
  }

  function SourceCreated(ours: I32, s: Registry, vid: nat, name: string, port: I32): Registry {
    var key := PortKey(ours, port);
    s.(sources := Add(s.sources, key, FromAlsa(key, name)), vsrcSend := s.vsrcSend[vid := port])
  }

  function SourceDestroyed(ours: I32, s: Registry, vid: nat): Registry {
    if vid in s.vsrcSend then
      RemoveSource(s.(vsrcSend := s.vsrcSend - {vid}), PortKey(ours, s.vsrcSend[vid]))
    else s
  }

  function DestinationCreated(ours: I32, s: Registry, vid: nat, name: string, port: I32): Registry {
    var key := PortKey(ours, port);
    s.(destinations := Add(s.destinations, key, FromAlsa(key, name)),
       vdestRecv := s.vdestRecv + {port},
       vdestPorts := s.vdestPorts[vid := port])
  }

  function DestinationGone(ours: I32, s: Registry, vid: nat): Registry {
    if vid in s.vdestPorts then
      var port := s.vdestPorts[vid];
      var notices := s.notices + if port in s.vdestRecv then [DestinationDestroyed(port)] else [];
      RemoveDestination(
        s.(vdestPorts := s.vdestPorts - {vid}, vdestRecv := s.vdestRecv - {port}, notices := notices),
        PortKey(ours, port))
    else s
  }

  /** Whether a connection request succeeds. */
  predicate Connects(s: Registry, step: Step, key: PortKey) {
    && step.ConnectDestination? && PortToKey(step.id) == key && step.answer.Works?
    && key !in s.destinationConnections
  }

  /** One command or announcement; `ours` is the client number of this program. */
  ghost function Apply(ours: I32, s: Registry, step: Step): Registry
    requires Possible(s, step)
  {
    match step
    case PortStart(key, info) => Started(ours, s, key, info)
    case PortExit(key) => RemoveDestination(RemoveSource(s, key), key)
    case SourceLeft(key) => RemoveSource(s, key)
    case DestinationLeft(key) => RemoveDestination(s, key)
    case ConnectSource(id, answer) =>
      if answer.Works? then s.(connections := s.connections + {PortToKey(id)}) else s
    case Disconnect(id) => s.(connections := s.connections - {PortToKey(id)})
    case ConnectDestination(id, _) =>
      if Connects(s, step, PortToKey(id)) then
        s.(destinationConnections := s.destinationConnections[PortToKey(id) := false])
      else s
    case DisconnectDestination(id) =>
      s.(destinationConnections := s.destinationConnections - {PortToKey(id)})
    case CreateVirtualSource(vid, name, created) =>
      if created.Ok? then SourceCreated(ours, s, vid, name, created.value) else s
    case DestroyVirtualSource(vid) => SourceDestroyed(ours, s, vid)
    case CreateVirtualDestination(vid, name, uniqueId, created) =>
      if uniqueId.None? && created.Ok? then DestinationCreated(ours, s, vid, name, created.value) else s
    case DestroyVirtualDestination(vid) => DestinationGone(ours, s, vid)
    case Joins(SourceSide) => s.(sources := Subscribe(s.sources))
    case Joins(DestinationSide) => s.(destinations := Subscribe(s.destinations))
    case HangsUp(SourceSide, id) => s.(sources := HangUp(s.sources, id))
    case HangsUp(DestinationSide, id) => s.(destinations := HangUp(s.destinations, id))
  }

  /** A run; steps the environment rules out do not happen. */
  ghost function Execute(ours: I32, s: Registry, steps: seq<Step>): Registry {
    if steps == [] then s
    else Next(ours, Execute(ours, s, steps[..|steps| - 1]), steps[|steps| - 1])
  }

  ghost function Next(ours: I32, s: Registry, step: Step): Registry {
    if Possible(s, step) then Apply(ours, s, step) else s
  }

  /** The gate every send to a destination passes. */
  function ResolveOutputState(s: Registry, key: PortKey): Result<(), IoError> {
    if key !in s.destinationConnections then Err(PortNotFound)
    else if s.destinationConnections[key] then Err(PortDisconnected)
    else Ok(())
  }

  /** A registry at start-up: caches of foreign ports, nothing announced, connected or created. */
  predicate Initial(ours: I32, s: Registry) {
    && s.sources.log == [] && s.sources.subs == [] && s.destinations.log == [] && s.destinations.subs == []
    && (forall k <- s.sources.cache :: k.client != ours && s.sources.cache[k].id == KeyToId(k))
    && (forall k <- s.destinations.cache :: k.client != ours && s.destinations.cache[k].id == KeyToId(k))
    && s.connections == {} && s.destinationConnections == map[] && s.vdestRecv == {}
    && s.vdestPorts == map[] && s.vsrcSend == map[] && s.notices == []
  }

  lemma ExecuteSnoc(ours: I32, s: Registry, steps: seq<Step>, step: Step)
    ensures Execute(ours, s, steps + [step]) == Next(ours, Execute(ours, s, steps), step)
  {
    assert (steps + [step])[..|steps|] == steps;
  }

  // ---- A client departs -----------------------------------------------------------------------

  /** The keys of one client, each once, in whatever order the hash map yields them. */
  ghost predicate Enumerates(keys: seq<PortKey>, cache: map<PortKey, Port>, client: I32) {
    && (forall k :: k in keys <==> k in cache && k.client == client)
    && forall i, j | 0 <= i < j < |keys| :: keys[i] != keys[j]
  }

  /** The removals of a departing client: its sources, then its destinations. */
  function Departure(sourceKeys: seq<PortKey>, destinationKeys: seq<PortKey>): seq<Step> {
    SourcesLeft(sourceKeys) + DestinationsLeft(destinationKeys)
  }

  function SourcesLeft(keys: seq<PortKey>): seq<Step> {
    seq(|keys|, i requires 0 <= i < |keys| => SourceLeft(keys[i]))
  }

  function DestinationsLeft(keys: seq<PortKey>): seq<Step> {
    seq(|keys|, i requires 0 <= i < |keys| => DestinationLeft(keys[i]))
  }

  /** What client threads may do between two removals. */
  predicate ChangesSubscribers(step: Step) {
    step.Joins? || step.HangsUp?
  }

  /** The registry without its subscribers. */
  function Core(s: Registry): Registry {
    s.(sources := s.sources.(subs := [], joined := 0), destinations := s.destinations.(subs := [], joined := 0))
  }

  lemma {:induction false} ExecuteConcat(ours: I32, s: Registry, p: seq<Step>, q: seq<Step>)
    ensures Execute(ours, s, p + q) == Execute(ours, Execute(ours, s, p), q)
  {
    if q == [] {
      assert p + q == p;
    } else {
      assert p + q == (p + q[..|q| - 1]) + [q[|q| - 1]];
      ExecuteConcat(ours, s, p, q[..|q| - 1]);
      ExecuteSnoc(ours, s, p + q[..|q| - 1], q[|q| - 1]);
    }
  }

  lemma CoreStep(ours: I32, s: Registry, t: Registry, step: Step)
    requires Core(s) == Core(t)
    ensures ChangesSubscribers(step) ==> Core(Next(ours, s, step)) == Core(t)
    ensures step.SourceLeft? || step.DestinationLeft? ==> Core(Next(ours, s, step)) == Core(Next(ours, t, step))
  {
  }

  /** Subscribing and hanging up between removals changes nothing but the subscribers. */
  lemma {:induction false} SubscribersAside(ours: I32, s: Registry, steps: seq<Step>)
    requires forall step <- steps :: ChangesSubscribers(step) || step.SourceLeft? || step.DestinationLeft?
    ensures Core(Execute(ours, s, steps)) == Core(Execute(ours, s, Filter(x => !ChangesSubscribers(x), steps)))
  {
    hide Core, Next;
    if steps == [] {
    } else {
      var front, last := steps[..|steps| - 1], steps[|steps| - 1];
      var kept := Filter(x => !ChangesSubscribers(x), front);
      assert steps == front + [last];
      SubscribersAside(ours, s, front);
      CoreStep(ours, Execute(ours, s, front), Execute(ours, s, kept), last);
      FilterConcat(x => !ChangesSubscribers(x), front, [last]);
      FilterAll(x => !ChangesSubscribers(x), [last]);
      if ChangesSubscribers(last) {
        assert kept + [] == kept;
      } else {
        ExecuteSnoc(ours, s, kept, last);
      }
    }
  }

  lemma {:induction false} SourcesLeave(ours: I32, s: Registry, keys: seq<PortKey>)
    ensures var s' := Execute(ours, s, SourcesLeft(keys));
            s' == s.(sources := RemoveAll(s.sources, keys), notices := s'.notices)
  {
    if keys == [] {
    } else {
      var front, last := keys[..|keys| - 1], keys[|keys| - 1];
      SourcesLeave(ours, s, front);
      assert SourcesLeft(keys) == SourcesLeft(front) + [SourceLeft(last)];
      ExecuteSnoc(ours, s, SourcesLeft(front), SourceLeft(last));
    }
  }

  lemma {:induction false} DestinationsLeave(ours: I32, s: Registry, keys: seq<PortKey>)
    ensures var s' := Execute(ours, s, DestinationsLeft(keys));
            s' == s.(destinations := RemoveAll(s.destinations, keys),
                     destinationConnections := s'.destinationConnections)
  {
    if keys == [] {
    } else {
      var front, last := keys[..|keys| - 1], keys[|keys| - 1];
      DestinationsLeave(ours, s, front);
      assert DestinationsLeft(keys) == DestinationsLeft(front) + [DestinationLeft(last)];
      ExecuteSnoc(ours, s, DestinationsLeft(front), DestinationLeft(last));
    }
  }

  /**
    A departing client: its cached ports, and no others, leave the caches, and each is announced removed exactly once,
    whatever client threads do to the subscriber lists between the removals.
    */
  lemma ClientExitExact(ours: I32, s: Registry, client: I32, sourceKeys: seq<PortKey>, destinationKeys: seq<PortKey>,
                        steps: seq<Step>)
    requires Enumerates(sourceKeys, s.sources.cache, client)
    requires Enumerates(destinationKeys, s.destinations.cache, client)
    requires Filter(x => !ChangesSubscribers(x), steps) == Departure(sourceKeys, destinationKeys)
    ensures var s' := Execute(ours, s, steps);
            && s'.sources.cache == (map k | k in s.sources.cache && k.client != client :: s.sources.cache[k])
            && s'.destinations.cache
               == (map k | k in s.destinations.cache && k.client != client :: s.destinations.cache[k])
            && s'.sources.log == s.sources.log + Removals(s.sources.cache, sourceKeys)
            && s'.destinations.log == s.destinations.log + Removals(s.destinations.cache, destinationKeys)
  {
    hide Execute;
    OnlyDepartures(steps, sourceKeys, destinationKeys);
    SubscribersAside(ours, s, steps);
    ExecuteConcat(ours, s, SourcesLeft(sourceKeys), DestinationsLeft(destinationKeys));
    SourcesLeave(ours, s, sourceKeys);
    DestinationsLeave(ours, Execute(ours, s, SourcesLeft(sourceKeys)), destinationKeys);
    RemoveAllExact(s.sources, sourceKeys);
    RemoveAllExact(s.destinations, destinationKeys);
  }

  lemma OnlyDepartures(steps: seq<Step>, sourceKeys: seq<PortKey>, destinationKeys: seq<PortKey>)
    requires Filter(x => !ChangesSubscribers(x), steps) == Departure(sourceKeys, destinationKeys)
    ensures forall step <- steps :: ChangesSubscribers(step) || step.SourceLeft? || step.DestinationLeft?
  {
    forall step | step in steps
      ensures ChangesSubscribers(step) || step.SourceLeft? || step.DestinationLeft?
    {
      if !ChangesSubscribers(step) {
        FilterHas(x => !ChangesSubscribers(x), steps, step);
        assert step in Departure(sourceKeys, destinationKeys);
      }
    }
  }

  // ---- Changes agree with caches --------------------------------------------------------------

  ghost predicate Announced(s: Registry, sources: View, destinations: View) {
    Agrees(s.sources, sources) && Agrees(s.destinations, destinations)
  }

  lemma NextAnnounced(ours: I32, s: Registry, step: Step, sources: View, destinations: View)
    requires Announced(s, sources, destinations)
    ensures Announced(Next(ours, s, step), sources, destinations)
  {
    hide Agrees, Add, Remove, RemoveAll, Subscribe, HangUp;
    if Possible(s, step) {
      match step {
        case PortStart(key, info) =>
          if info.Some? {
            AddAgrees(s.sources, sources, key, FromAlsa(key, info.value.name));
            AddAgrees(s.destinations, destinations, key, FromAlsa(key, info.value.name));
          }
        case PortExit(key) =>
          RemoveAgrees(s.sources, sources, key);
          RemoveAgrees(s.destinations, destinations, key);
        case SourceLeft(key) => RemoveAgrees(s.sources, sources, key);
        case DestinationLeft(key) => RemoveAgrees(s.destinations, destinations, key);
        case CreateVirtualSource(_, name, created) =>
          if created.Ok? {
            var key := PortKey(ours, created.value);
            AddAgrees(s.sources, sources, key, FromAlsa(key, name));
          }
        case DestroyVirtualSource(vid) =>
          if vid in s.vsrcSend {
            RemoveAgrees(s.sources, sources, PortKey(ours, s.vsrcSend[vid]));
          }
        case CreateVirtualDestination(_, name, _, created) =>
          if created.Ok? {
            var key := PortKey(ours, created.value);
            AddAgrees(s.destinations, destinations, key, FromAlsa(key, name));
          }
        case DestroyVirtualDestination(vid) =>
          if vid in s.vdestPorts {
            RemoveAgrees(s.destinations, destinations, PortKey(ours, s.vdestPorts[vid]));
          }
        case Joins(_) =>
          SubscribersAgree(s.sources, sources, 0);
          SubscribersAgree(s.destinations, destinations, 0);
        case HangsUp(_, id) =>
          SubscribersAgree(s.sources, sources, id);
          SubscribersAgree(s.destinations, destinations, id);
        case _ =>
      }
    }
  }

  lemma {:induction false} RunAnnounced(ours: I32, s: Registry, steps: seq<Step>, sources: View, destinations: View)
    requires Announced(s, sources, destinations)
    ensures Announced(Execute(ours, s, steps), sources, destinations)
  {
    hide Announced, Next;
    if steps == [] {
    } else {
      RunAnnounced(ours, s, steps[..|steps| - 1], sources, destinations);
      NextAnnounced(ours, Execute(ours, s, steps[..|steps| - 1]), steps[|steps| - 1], sources, destinations);
    }
  }

  lemma StartAnnounced(ours: I32, start: Registry)
    requires Initial(ours, start)
    ensures Announced(start, Listing(start.sources.cache), Listing(start.destinations.cache))
  {
  }

  // ---- Subscriptions --------------------------------------------------------------------------

  lemma AddHears(d: Directory, key: PortKey, port: Port, sub: Subscriber)
    requires sub in d.subs && sub.open
    ensures var d' := Add(d, key, port);
            d.log <= d'.log && sub.(inbox := sub.inbox + d'.log[|d.log|..]) in d'.subs
  {
    DeliverHas(d.subs, Added(port), sub);
  }

  lemma RemoveHears(d: Directory, key: PortKey, sub: Subscriber)
    requires sub in d.subs && sub.open
    ensures var d' := Remove(d, key);
            d.log <= d'.log && sub.(inbox := sub.inbox + d'.log[|d.log|..]) in d'.subs
  {
    SameHears(d, sub);
    if key in d.cache {
      DeliverHas(d.subs, Removed(d.cache[key]), sub);
    }
  }

  lemma SameHears(d: Directory, sub: Subscriber)
    requires sub in d.subs
    ensures sub.(inbox := sub.inbox + d.log[|d.log|..]) in d.subs
  {
    assert sub.(inbox := sub.inbox + d.log[|d.log|..]) == sub;
  }

  lemma SubscribersHear(d: Directory, id: nat, sub: Subscriber)
    requires sub in d.subs && sub.open
    ensures var d' := Subscribe(d);
            d.log == d'.log && sub.(inbox := sub.inbox + d'.log[|d.log|..]) in d'.subs
    ensures id != sub.id ==>
              var d' := HangUp(d, id);
              d.log == d'.log && sub.(inbox := sub.inbox + d'.log[|d.log|..]) in d'.subs
  {
    var i :| 0 <= i < |d.subs| && d.subs[i] == sub;
    assert Subscribe(d).subs[i] == sub;
    SameHears(Subscribe(d), sub);
    if id != sub.id {
      assert HangUp(d, id).subs[i] == sub;
      SameHears(HangUp(d, id), sub);
    }
  }

  /** A listening subscriber is still there after any step but its own hanging up, with what the step announced. */
  lemma NextHears(ours: I32, s: Registry, step: Step, side: Side, sub: Subscriber)
    requires sub in Of(s, side).subs && sub.open && step != HangsUp(side, sub.id)
    ensures var d, d' := Of(s, side), Of(Next(ours, s, step), side);
            d.log <= d'.log && sub.(inbox := sub.inbox + d'.log[|d.log|..]) in d'.subs
  {
    hide Add, Remove, Subscribe, HangUp, FromAlsa, KeyToId, PortToKey;
    var d := Of(s, side);
    SameHears(d, sub);
    if Possible(s, step) {
      match step {
        case PortStart(key, info) =>
          if info.Some? {
            AddHears(d, key, FromAlsa(key, info.value.name), sub);
          }
        case PortExit(key) => RemoveHears(d, key, sub);
        case SourceLeft(key) => RemoveHears(d, key, sub);
        case DestinationLeft(key) => RemoveHears(d, key, sub);
        case CreateVirtualSource(_, name, created) =>
          if created.Ok? {
            AddHears(d, PortKey(ours, created.value), FromAlsa(PortKey(ours, created.value), name), sub);
          }
        case DestroyVirtualSource(vid) =>
          if vid in s.vsrcSend {
            RemoveHears(d, PortKey(ours, s.vsrcSend[vid]), sub);
          }
        case CreateVirtualDestination(_, name, _, created) =>
          if created.Ok? {
            AddHears(d, PortKey(ours, created.value), FromAlsa(PortKey(ours, created.value), name), sub);
          }
        case DestroyVirtualDestination(vid) =>
          if vid in s.vdestPorts {
            RemoveHears(d, PortKey(ours, s.vdestPorts[vid]), sub);
          }
        case Joins(_) => SubscribersHear(d, 0, sub);
        case HangsUp(_, id) => SubscribersHear(d, id, sub);
        case _ =>
      }
    }
  }

  /** Over runs: one who does not hang up stays, and hears everything that is announced, in order. */
  lemma {:induction false} RunHears(ours: I32, s: Registry, steps: seq<Step>, side: Side, sub: Subscriber)
    requires sub in Of(s, side).subs && sub.open && HangsUp(side, sub.id) !in steps
    ensures var d, d' := Of(s, side), Of(Execute(ours, s, steps), side);
            d.log <= d'.log && sub.(inbox := sub.inbox + d'.log[|d.log|..]) in d'.subs
  {
    hide Next, Of;
    if steps == [] {
      SameHears(Of(s, side), sub);
    } else {
      var front, last := steps[..|steps| - 1], steps[|steps| - 1];
      var mid := Execute(ours, s, front);
      var d, d1, d2 := Of(s, side), Of(mid, side), Of(Next(ours, mid, last), side);
      RunHears(ours, s, front, side, sub);
      var sub1 := sub.(inbox := sub.inbox + d1.log[|d.log|..]);
      NextHears(ours, mid, last, side, sub1);
      assert d2.log[|d.log|..] == d1.log[|d.log|..] + d2.log[|d1.log|..];
      assert sub.inbox + (d1.log[|d.log|..] + d2.log[|d1.log|..]) == sub1.inbox + d2.log[|d1.log|..];
    }
  }

  /** A subscription whose receiver is gone: it is no longer listening, wherever it is still listed. */
  ghost predicate Silent(d: Directory, id: nat) {
    id < d.joined && forall sub <- d.subs :: sub.id == id ==> !sub.open
  }

  ghost predicate Forgotten(d: Directory, id: nat) {
    forall sub <- d.subs :: sub.id != id
  }

  lemma AnnounceForgets(d: Directory, change: Change, id: nat)
    requires Silent(d, id)
    ensures Silent(Announce(d, change), id) && Forgotten(Announce(d, change), id)
  {
    forall told <- Announce(d, change).subs
      ensures told.id != id
    {
      DeliverHas(d.subs, change, told);
    }
  }

  lemma NextForgets(ours: I32, s: Registry, step: Step, side: Side, id: nat)
    requires Silent(Of(s, side), id)
    ensures var d, d' := Of(s, side), Of(Next(ours, s, step), side);
            && Silent(d', id)
            && (d.log != d'.log || Forgotten(d, id) ==> Forgotten(d', id))
  {
    hide Announce, FromAlsa, KeyToId, PortToKey;
    if Possible(s, step) {
      var d := Of(s, side);
      forall d1: Directory, change | d1.subs == d.subs && d1.joined == d.joined
        ensures Silent(Announce(d1, change), id) && Forgotten(Announce(d1, change), id)
      {
        AnnounceForgets(d1, change, id);
      }
    }
  }

  lemma {:induction false} RunForgets(ours: I32, s: Registry, steps: seq<Step>, side: Side, id: nat)
    requires Silent(Of(s, side), id)
    ensures var d, d' := Of(s, side), Of(Execute(ours, s, steps), side);
            && Silent(d', id)
            && (d.log != d'.log || Forgotten(d, id) ==> Forgotten(d', id))
  {
    hide Next, Of, Silent, Forgotten;
    if steps == [] {
    } else {
      RunForgets(ours, s, steps[..|steps| - 1], side, id);
      NextForgets(ours, Execute(ours, s, steps[..|steps| - 1]), steps[|steps| - 1], side, id);
    }
  }

  /** One who hangs up is never told anything again, and is forgotten by the next change announced. */
  lemma HangUpForgets(ours: I32, s: Registry, side: Side, id: nat, after: seq<Step>)
    requires id < Of(s, side).joined
    ensures var d, d' := Of(s, side), Of(Execute(ours, Next(ours, s, HangsUp(side, id)), after), side);
            Silent(d', id) && (d.log != d'.log ==> Forgotten(d', id))
  {
    RunForgets(ours, Next(ours, s, HangsUp(side, id)), after, side, id);
  }

  lemma JoinsLast(ours: I32, s: Registry, side: Side)
    ensures var d, d' := Of(s, side), Of(Next(ours, s, Joins(side)), side);
            && Subscriber(d.joined, true, |d.log|, []) in d'.subs
            && d'.log == d.log && d'.cache == d.cache
  {
  }

  /**
    Subscribe, then list. From start-up, through any interleaving of commands, announcements and other clients, one who
    subscribes after `prior`, lists after `between` and never hangs up is still subscribed after `after`, once, and has
    been sent exactly what was announced since it joined. Replaying that over the listing gives the current ports.
    */
  lemma SubscribeThenList(ours: I32, start: Registry, side: Side, prior: seq<Step>, between: seq<Step>,
                          after: seq<Step>)
    requires Initial(ours, start)
    requires HangsUp(side, Of(Execute(ours, start, prior), side).joined) !in between + after
    ensures var joined := Execute(ours, start, prior + [Joins(side)]);
            var listed := Execute(ours, joined, between);
            var past, now := Of(Execute(ours, start, prior), side), Of(Execute(ours, listed, after), side);
            && past.log <= now.log
            && var sub := Subscriber(past.joined, true, |past.log|, now.log[|past.log|..]);
            && sub in now.subs
            && (forall other <- now.subs :: other.id == sub.id ==> other == sub)
            && Replay(Listing(Of(listed, side).cache), sub.inbox) == Listing(now.cache)
  {
    hide Next, Execute, Initial, Listing, Replay, Of, Current, Distinct;
    var earlier := Execute(ours, start, prior);
    var joined := Execute(ours, start, prior + [Joins(side)]);
    var listed := Execute(ours, joined, between);
    var now := Execute(ours, listed, after);
    var past := Of(earlier, side);
    var newcomer := Subscriber(past.joined, true, |past.log|, []);
    ExecuteSnoc(ours, start, prior, Joins(side));
    JoinsLast(ours, earlier, side);
    RunHears(ours, joined, between, side, newcomer);
    var sub := newcomer.(inbox := newcomer.inbox + Of(listed, side).log[|past.log|..]);
    RunHears(ours, listed, after, side, sub);
    var last := sub.(inbox := sub.inbox + Of(now, side).log[|Of(listed, side).log|..]);
    assert last.inbox == Of(now, side).log[|past.log|..];
    BothAgree(ours, start, side, prior + [Joins(side)] + between);
    ExecuteConcat(ours, start, prior + [Joins(side)], between);
    BothAgree(ours, start, side, prior + [Joins(side)] + between + after);
    ExecuteConcat(ours, start, prior + [Joins(side)] + between, after);
    Converges(Listing(Of(start, side).cache), Of(listed, side), Of(now, side), last);
    OnlyOne(Of(now, side).subs, last);
  }

  lemma BothAgree(ours: I32, start: Registry, side: Side, steps: seq<Step>)
    requires Initial(ours, start)
    ensures Agrees(Of(Execute(ours, start, steps), side), Listing(Of(start, side).cache))
  {
    hide Initial, Execute, Agrees, Listing;
    StartAnnounced(ours, start);
    RunAnnounced(ours, start, steps, Listing(start.sources.cache), Listing(start.destinations.cache));
  }

  lemma OnlyOne(subs: seq<Subscriber>, sub: Subscriber)
    requires Distinct(subs) && sub in subs
    ensures forall other <- subs :: other.id == sub.id ==> other == sub
  {
  }

  // ---- Starts, exits and notices --------------------------------------------------------------

  /** The listed port carries the announced name, an id that leads back to its key, and whether it is virtual. */
  predicate Describes(port: Port, key: PortKey, name: string) {
    && PortToKey(port.id) == key
    && port.name == name
    && (port.isVirtual <==> key.client >= 128)
  }

  /** A listing and its announcements after `key` was listed under a name; nothing else has changed. */
  predicate Lists(before: Directory, after: Directory, key: PortKey, name: string) {
    && key in after.cache && Describes(after.cache[key], key, name)
    && after.cache == before.cache[key := after.cache[key]]
    && after.log == before.log + [Added(after.cache[key])]
  }

  /** A listing and its announcements after `key` was dropped, if it was there. */
  predicate Delists(before: Directory, after: Directory, key: PortKey) {
    && after.cache == before.cache - {key}
    && after.log == before.log + if key in before.cache then [Removed(before.cache[key])] else []
  }

  lemma AddLists(d: Directory, key: PortKey, name: string)
    ensures Lists(d, Add(d, key, FromAlsa(key, name)), key, name)
  {
    KeyIdRoundTrip(key, 0);
  }

  lemma RemoveDelists(d: Directory, key: PortKey)
    ensures Delists(d, Remove(d, key), key)
  {
  }

  /**
    A foreign port that starts is listed under its own key by its capabilities, each listing announced once; its exit
    undoes exactly that. Announcements of the system's ports, of our own and of unknown ports are ignored.
    */
  lemma StartThenExit(ours: I32, s: Registry, key: PortKey, info: PortInfo)
    ensures var started := Next(ours, s, PortStart(key, Some(info)));
            var exited := Next(ours, started, PortExit(key));
            && (key.client == 0 || key.client == ours ==> started == s)
            && (key.client != 0 && key.client != ours ==>
                  && (if info.isSource then Lists(s.sources, started.sources, key, info.name)
                      else started.sources == s.sources)
                  && (if info.isDestination then Lists(s.destinations, started.destinations, key, info.name)
                      else started.destinations == s.destinations))
            && Delists(started.sources, exited.sources, key)
            && Delists(started.destinations, exited.destinations, key)
    ensures Next(ours, s, PortStart(key, None)) == s
  {
    hide Add, Remove, FromAlsa, Lists, Delists;
    AddLists(s.sources, key, info.name);
    AddLists(s.destinations, key, info.name);
    var started := Next(ours, s, PortStart(key, Some(info)));
    RemoveDelists(started.sources, key);
    RemoveDelists(started.destinations, key);
  }

  function Count(notices: seq<Notice>, notice: Notice): nat {
    multiset(notices)[notice]
  }

  lemma RemoveSourceNotice(s: Registry, gone: PortKey, key: PortKey)
    ensures RemoveSource(s, gone).connections == s.connections
    ensures key in RemoveSource(s, gone).sources.cache <==> key in s.sources.cache && key != gone
    ensures Count(RemoveSource(s, gone).notices, SourceGone(key))
            == Count(s.notices, SourceGone(key))
               + if key == gone && key in s.sources.cache && key in s.connections then 1 else 0
  {
  }

  lemma OtherNotice(notices: seq<Notice>, port: I32, key: PortKey)
    ensures Count(notices + [DestinationDestroyed(port)], SourceGone(key)) == Count(notices, SourceGone(key))
    ensures Count(notices + [], SourceGone(key)) == Count(notices, SourceGone(key))
  {
    assert notices + [] == notices;
  }

  /** A connected source's stream is sent exactly one notice in the step in which its port leaves the cache. */
  lemma NoticeStep(ours: I32, s: Registry, step: Step, key: PortKey)
    ensures var s' := Next(ours, s, step);
            Count(s'.notices, SourceGone(key))
            == Count(s.notices, SourceGone(key))
               + if key in s.sources.cache && key !in s'.sources.cache && key in s.connections then 1 else 0
  {
    hide Count, RemoveSource, Deliver, KeyToId, PortToKey;
    if Possible(s, step) {
      match step {
        case SourceLeft(k) => RemoveSourceNotice(s, k, key);
        case PortExit(k) => RemoveSourceNotice(s, k, key);
        case DestroyVirtualSource(vid) =>
          if vid in s.vsrcSend {
            RemoveSourceNotice(s.(vsrcSend := s.vsrcSend - {vid}), PortKey(ours, s.vsrcSend[vid]), key);
          }
        case DestroyVirtualDestination(vid) =>
          if vid in s.vdestPorts {
            OtherNotice(s.notices, s.vdestPorts[vid], key);
          }
        case _ =>
      }
    }
  }

  lemma DestroyedNotice(notices: seq<Notice>, gone: I32, port: I32)
    ensures Count(notices + [DestinationDestroyed(gone)], DestinationDestroyed(port))
            == Count(notices, DestinationDestroyed(port)) + if gone == port then 1 else 0
  {
  }

  lemma SourceNotice(s: Registry, gone: PortKey, port: I32)
    ensures RemoveSource(s, gone).vdestRecv == s.vdestRecv
    ensures Count(RemoveSource(s, gone).notices, DestinationDestroyed(port))
            == Count(s.notices, DestinationDestroyed(port))
  {
  }

  /** A virtual destination's stream is sent exactly one notice in the step in which it stops receiving. */
  lemma DestroyNoticeStep(ours: I32, s: Registry, step: Step, port: I32)
    ensures var s' := Next(ours, s, step);
            Count(s'.notices, DestinationDestroyed(port))
            == Count(s.notices, DestinationDestroyed(port))
               + if port in s.vdestRecv && port !in s'.vdestRecv then 1 else 0
  {
    hide Count, RemoveSource, Deliver, KeyToId, PortToKey;
    if Possible(s, step) {
      match step {
        case SourceLeft(k) => SourceNotice(s, k, port);
        case PortExit(k) => SourceNotice(s, k, port);
        case DestroyVirtualSource(vid) =>
          if vid in s.vsrcSend {
            SourceNotice(s.(vsrcSend := s.vsrcSend - {vid}), PortKey(ours, s.vsrcSend[vid]), port);
          }
        case DestroyVirtualDestination(vid) =>
          if vid in s.vdestPorts {
            DestroyedNotice(s.notices, s.vdestPorts[vid], port);
            assert s.notices + [] == s.notices;
          }
        case _ =>
      }
    }
  }

  // ---- Connections over runs ------------------------------------------------------------------

  /** Three things a key can have: a source connection, a recorded destination, a destination that takes sends. */
  datatype Link = SourceLink | RecordedLink | LiveLink

  predicate Held(link: Link, s: Registry, key: PortKey) {
    match link
    case SourceLink => key in s.connections
    case RecordedLink => key in s.destinationConnections
    case LiveLink => ResolveOutputState(s, key).Ok?
  }

  /** Whether a step is a successful connect. */
  predicate Opens(link: Link, s: Registry, step: Step, key: PortKey) {
    match link
    case SourceLink =>
      step.ConnectSource? && PortToKey(step.id) == key && step.answer.Works? && key !in s.connections
    case _ => Connects(s, step, key)
  }

  /** Whether a step ends it: an explicit disconnect or, for sends, the port leaving the destination cache. */
  ghost predicate Closes(link: Link, ours: I32, s: Registry, step: Step, key: PortKey) {
    match link
    case SourceLink => step.Disconnect? && PortToKey(step.id) == key
    case RecordedLink => step.DisconnectDestination? && PortToKey(step.id) == key
    case LiveLink =>
      || (step.DisconnectDestination? && PortToKey(step.id) == key)
      || (key in s.destinations.cache && key !in Next(ours, s, step).destinations.cache)
  }

  ghost predicate OpensAt(link: Link, ours: I32, start: Registry, steps: seq<Step>, i: nat, key: PortKey)
    requires i < |steps|
  {
    Opens(link, Execute(ours, start, steps[..i]), steps[i], key)
  }

  ghost predicate ClosesAt(link: Link, ours: I32, start: Registry, steps: seq<Step>, i: nat, key: PortKey)
    requires i < |steps|
  {
    Closes(link, ours, Execute(ours, start, steps[..i]), steps[i], key)
  }

  /** Some successful connect has had nothing after it that ends it. */
  ghost predicate OpenSince(link: Link, ours: I32, start: Registry, steps: seq<Step>, key: PortKey) {
    exists i | 0 <= i < |steps| ::
      && OpensAt(link, ours, start, steps, i, key)
      && forall j | i < j < |steps| :: !ClosesAt(link, ours, start, steps, j, key)
  }

  lemma SourceLinkStep(ours: I32, s: Registry, step: Step, key: PortKey)
    ensures Held(SourceLink, Next(ours, s, step), key)
            <==> Opens(SourceLink, s, step, key)
                 || (Held(SourceLink, s, key) && !Closes(SourceLink, ours, s, step, key))
  {
    hide Add, Remove, FromAlsa, KeyToId, PortToKey;
  }

  lemma RecordedLinkStep(ours: I32, s: Registry, step: Step, key: PortKey)
    ensures Held(RecordedLink, Next(ours, s, step), key)
            <==> Opens(RecordedLink, s, step, key)
                 || (Held(RecordedLink, s, key) && !Closes(RecordedLink, ours, s, step, key))
  {
    hide Add, Remove, FromAlsa, KeyToId, PortToKey;
  }

  lemma LiveLinkStep(ours: I32, s: Registry, step: Step, key: PortKey)
    ensures Held(LiveLink, Next(ours, s, step), key)
            <==> Opens(LiveLink, s, step, key) || (Held(LiveLink, s, key) && !Closes(LiveLink, ours, s, step, key))
  {
    hide Deliver, FromAlsa, KeyToId, PortToKey;
  }

  /** One step opens a link if it connects, and closes it if it ends it. */
  lemma LinkStep(link: Link, ours: I32, s: Registry, step: Step, key: PortKey)
    ensures Held(link, Next(ours, s, step), key)
            <==> Opens(link, s, step, key) || (Held(link, s, key) && !Closes(link, ours, s, step, key))
  {
    hide Held, Opens, Closes, Next;
    match link
    case SourceLink => SourceLinkStep(ours, s, step, key);
    case RecordedLink => RecordedLinkStep(ours, s, step, key);
    case LiveLink => LiveLinkStep(ours, s, step, key);
  }

  lemma OpenSinceStep(link: Link, ours: I32, start: Registry, steps: seq<Step>, step: Step, key: PortKey)
    ensures var s := Execute(ours, start, steps);
            OpenSince(link, ours, start, steps + [step], key)
            <==> Opens(link, s, step, key)
                 || (OpenSince(link, ours, start, steps, key) && !Closes(link, ours, s, step, key))
  {
    hide Opens, Closes, Execute;
    var longer, n := steps + [step], |steps|;
    assert longer[..n] == steps;
    forall i | 0 <= i < n
      ensures OpensAt(link, ours, start, longer, i, key) == OpensAt(link, ours, start, steps, i, key)
      ensures ClosesAt(link, ours, start, longer, i, key) == ClosesAt(link, ours, start, steps, i, key)
    {
      assert longer[..i] == steps[..i];
    }
    assert OpensAt(link, ours, start, longer, n, key) == Opens(link, Execute(ours, start, steps), step, key);
    assert ClosesAt(link, ours, start, longer, n, key) == Closes(link, ours, Execute(ours, start, steps), step, key);
    if OpenSince(link, ours, start, steps, key) && !Closes(link, ours, Execute(ours, start, steps), step, key) {
      var i :| 0 <= i < n && OpensAt(link, ours, start, steps, i, key)
               && forall j | i < j < n :: !ClosesAt(link, ours, start, steps, j, key);
      assert OpensAt(link, ours, start, longer, i, key);
    }
    if OpenSince(link, ours, start, longer, key) && !Opens(link, Execute(ours, start, steps), step, key) {
      var i :| 0 <= i < |longer| && OpensAt(link, ours, start, longer, i, key)
               && forall j | i < j < |longer| :: !ClosesAt(link, ours, start, longer, j, key);
      assert OpensAt(link, ours, start, steps, i, key);
      assert !ClosesAt(link, ours, start, longer, n, key);
    }
  }

  /**
    Connections over runs: a link is held exactly when its last successful connect came after everything that ends it.
    For sends that is the last disconnect and the last time the port left the cache: a returning port does not revive
    a connection.
    */
  lemma {:induction false} LinkHistory(link: Link, ours: I32, start: Registry, steps: seq<Step>, key: PortKey)
    requires Initial(ours, start)
    ensures Held(link, Execute(ours, start, steps), key) <==> OpenSince(link, ours, start, steps, key)
  {
    hide Opens, Closes, Next;
    if steps == [] {
    } else {
      var front, last := steps[..|steps| - 1], steps[|steps| - 1];
      assert steps == front + [last];
      LinkHistory(link, ours, start, front, key);
      LinkStep(link, ours, Execute(ours, start, front), last, key);
      OpenSinceStep(link, ours, start, front, last, key);
      ExecuteSnoc(ours, start, front, last);
    }
  }

  /** The send gate over runs, with its two refusals told apart by the same history. */
  lemma SendGate(ours: I32, start: Registry, steps: seq<Step>, key: PortKey)
    requires Initial(ours, start)
    ensures var r := ResolveOutputState(Execute(ours, start, steps), key);
            && (r.Ok? <==> OpenSince(LiveLink, ours, start, steps, key))
            && (r == Err(PortNotFound) <==> !OpenSince(RecordedLink, ours, start, steps, key))
            && (r == Err(PortDisconnected)
                <==> OpenSince(RecordedLink, ours, start, steps, key) && !OpenSince(LiveLink, ours, start, steps, key))
  {
    LinkHistory(LiveLink, ours, start, steps, key);
    LinkHistory(RecordedLink, ours, start, steps, key);
  }

  // ---- Virtual ports --------------------------------------------------------------------------

  ghost predicate Injective(m: map<nat, I32>) {
    forall a, b :: a in m && b in m && m[a] == m[b] ==> a == b
  }

  /**
    Virtual ports: every port belongs to one id and one kind, the receiving ports are those of the virtual
    destinations, and a cached port of our own client is a live virtual port of that kind.
    */
  ghost predicate VirtualPortsOk(ours: I32, s: Registry) {
    && Injective(s.vdestPorts) && Injective(s.vsrcSend)
    && s.vdestPorts.Values == s.vdestRecv
    && s.vdestPorts.Values !! s.vsrcSend.Values
    && (forall k <- s.sources.cache :: k.client == ours ==> k.port in s.vsrcSend.Values)
    && (forall k <- s.destinations.cache :: k.client == ours ==> k.port in s.vdestPorts.Values)
  }

  lemma ValuesInsert(m: map<nat, I32>, id: nat, port: I32)
    requires Injective(m) && id !in m && port !in m.Values
    ensures Injective(m[id := port]) && m[id := port].Values == m.Values + {port}
  {
    var m' := m[id := port];
    assert m'[id] == port;
    forall v | v in m.Values + {port}
      ensures v in m'.Values
    {
      if v != port {
        var k :| k in m && m[k] == v;
        assert m'[k] == v;
      }
    }
  }

  lemma ValuesRemove(m: map<nat, I32>, id: nat)
    requires Injective(m) && id in m
    ensures Injective(m - {id}) && (m - {id}).Values == m.Values - {m[id]}
  {
    var m' := m - {id};
    forall v | v in m.Values - {m[id]}
      ensures v in m'.Values
    {
      var k :| k in m && m[k] == v;
      assert k in m' && m'[k] == v;
    }
  }

  lemma VirtualPortsAfterSource(ours: I32, s: Registry, step: Step)
    requires VirtualPortsOk(ours, s) && Possible(s, step) && (step.CreateVirtualSource? || step.DestroyVirtualSource?)
    ensures VirtualPortsOk(ours, Apply(ours, s, step))
  {
    hide Deliver, KeyToId, PortToKey, Injective;
    if step.CreateVirtualSource? && step.created.Ok? {
      ValuesInsert(s.vsrcSend, step.vid, step.created.value);
    }
    if step.DestroyVirtualSource? && step.vid in s.vsrcSend {
      ValuesRemove(s.vsrcSend, step.vid);
    }
  }

  lemma VirtualPortsAfterDestination(ours: I32, s: Registry, step: Step)
    requires VirtualPortsOk(ours, s) && Possible(s, step)
    requires step.CreateVirtualDestination? || step.DestroyVirtualDestination?
    ensures VirtualPortsOk(ours, Apply(ours, s, step))
  {
    hide Deliver, KeyToId, PortToKey, Injective;
    if step.CreateVirtualDestination? && step.created.Ok? {
      ValuesInsert(s.vdestPorts, step.vid, step.created.value);
    }
    if step.DestroyVirtualDestination? && step.vid in s.vdestPorts {
      ValuesRemove(s.vdestPorts, step.vid);
    }
  }

  lemma NextVirtualPorts(ours: I32, s: Registry, step: Step)
    requires VirtualPortsOk(ours, s)
    ensures VirtualPortsOk(ours, Next(ours, s, step))
  {
    hide Deliver, KeyToId, PortToKey, Injective;
    if Possible(s, step) {
      match step {
        case CreateVirtualSource(_, _, _) => VirtualPortsAfterSource(ours, s, step);
        case DestroyVirtualSource(_) => VirtualPortsAfterSource(ours, s, step);
        case CreateVirtualDestination(_, _, _, _) => VirtualPortsAfterDestination(ours, s, step);
        case DestroyVirtualDestination(_) => VirtualPortsAfterDestination(ours, s, step);
        case _ =>
      }
    }
  }

  lemma {:induction false} RunVirtualPorts(ours: I32, start: Registry, steps: seq<Step>)
    requires Initial(ours, start)
    ensures VirtualPortsOk(ours, Execute(ours, start, steps))
  {
    hide VirtualPortsOk, Next;
    if steps == [] {
      StartVirtualPorts(ours, start);
    } else {
      RunVirtualPorts(ours, start, steps[..|steps| - 1]);
      NextVirtualPorts(ours, Execute(ours, start, steps[..|steps| - 1]), steps[|steps| - 1]);
    }
  }

  lemma StartVirtualPorts(ours: I32, start: Registry)
    requires Initial(ours, start)
    ensures VirtualPortsOk(ours, start)
  {
  }

  // ---- Own ports and stale announcements ------------------------------------------------------

  /** The cached ports of our own client are precisely the live virtual ports. */
  ghost predicate OwnPortsListed(ours: I32, s: Registry) {
    && (forall p: I32 :: p in s.vsrcSend.Values <==> PortKey(ours, p) in s.sources.cache)
    && (forall p: I32 :: p in s.vdestPorts.Values <==> PortKey(ours, p) in s.destinations.cache)
  }

  /** A step that takes one of our live virtual ports for gone. */
  ghost predicate AnnouncesOwnExit(ours: I32, s: Registry, step: Step) {
    match step
    case PortExit(key) => key.client == ours && (key.port in s.vsrcSend.Values || key.port in s.vdestPorts.Values)
    case SourceLeft(key) => key.client == ours && key.port in s.vsrcSend.Values
    case DestinationLeft(key) => key.client == ours && key.port in s.vdestPorts.Values
    case _ => false
  }

  lemma OwnExit(ours: I32, s: Registry, step: Step)
    requires VirtualPortsOk(ours, s) && OwnPortsListed(ours, s)
    requires step.PortExit? || step.SourceLeft? || step.DestinationLeft?
    ensures OwnPortsListed(ours, Next(ours, s, step)) <==> !AnnouncesOwnExit(ours, s, step)
  {
    hide Deliver, KeyToId, PortToKey, VirtualPortsOk;
    if AnnouncesOwnExit(ours, s, step) {
      assert step.key == PortKey(ours, step.key.port);
    }
  }

  lemma OwnSourceStep(ours: I32, s: Registry, step: Step)
    requires VirtualPortsOk(ours, s) && OwnPortsListed(ours, s) && Possible(s, step)
    requires step.CreateVirtualSource? || step.DestroyVirtualSource?
    ensures OwnPortsListed(ours, Next(ours, s, step))
  {
    hide VirtualPortsOk, Deliver, KeyToId, PortToKey;
    if step.CreateVirtualSource? && step.created.Ok? {
      ValuesInsertOk(ours, s, s.vsrcSend, step.vid, step.created.value);
    }
    if step.DestroyVirtualSource? && step.vid in s.vsrcSend {
      ValuesRemoveOk(ours, s, s.vsrcSend, step.vid);
    }
  }

  lemma OwnDestinationStep(ours: I32, s: Registry, step: Step)
    requires VirtualPortsOk(ours, s) && OwnPortsListed(ours, s) && Possible(s, step)
    requires step.CreateVirtualDestination? || step.DestroyVirtualDestination?
    ensures OwnPortsListed(ours, Next(ours, s, step))
  {
    hide VirtualPortsOk, Deliver, KeyToId, PortToKey;
    if step.CreateVirtualDestination? && step.created.Ok? {
      ValuesInsertOk(ours, s, s.vdestPorts, step.vid, step.created.value);
    }
    if step.DestroyVirtualDestination? && step.vid in s.vdestPorts {
      ValuesRemoveOk(ours, s, s.vdestPorts, step.vid);
    }
  }

  lemma OwnPortsStep(ours: I32, s: Registry, step: Step)
    requires VirtualPortsOk(ours, s) && OwnPortsListed(ours, s) && Possible(s, step)
    ensures OwnPortsListed(ours, Next(ours, s, step)) <==> !AnnouncesOwnExit(ours, s, step)
  {
    hide VirtualPortsOk, Deliver, KeyToId, PortToKey;
    match step {
      case PortExit(_) => OwnExit(ours, s, step);
      case SourceLeft(_) => OwnExit(ours, s, step);
      case DestinationLeft(_) => OwnExit(ours, s, step);
      case CreateVirtualSource(_, _, _) => OwnSourceStep(ours, s, step);
      case DestroyVirtualSource(_) => OwnSourceStep(ours, s, step);
      case CreateVirtualDestination(_, _, _, _) => OwnDestinationStep(ours, s, step);
      case DestroyVirtualDestination(_) => OwnDestinationStep(ours, s, step);
      case _ =>
    }
  }

  /** At step i of a run, an exit is announced for one of our ports that is live at that moment. */
  ghost predicate OwnExitAt(ours: I32, start: Registry, steps: seq<Step>, i: nat)
    requires i < |steps|
  {
    AnnouncesOwnExit(ours, Execute(ours, start, steps[..i]), steps[i])
  }

  /**
    Over runs from start-up, the listing of our own ports is exact after every step exactly when no exit is ever
    announced for a port of ours that is live at that moment.
    */
  lemma {:induction false} OwnPortsRun(ours: I32, start: Registry, steps: seq<Step>)
    requires Initial(ours, start)
    ensures (forall n | 0 <= n <= |steps| :: OwnPortsListed(ours, Execute(ours, start, steps[..n])))
            <==> (forall i | 0 <= i < |steps| :: !OwnExitAt(ours, start, steps, i))
  {
    hide OwnPortsListed, AnnouncesOwnExit, Execute, Initial;
    if steps == [] {
      OwnPortsStart(ours, start);
    } else {
      var front, last := steps[..|steps| - 1], steps[|steps| - 1];
      var s := Execute(ours, start, front);
      assert steps == front + [last] && steps[..|steps|] == steps;
      OwnPortsRun(ours, start, front);
      ExecuteSnoc(ours, start, front, last);
      forall n | 0 <= n <= |front|
        ensures steps[..n] == front[..n]
      {
      }
      forall i | 0 <= i < |front|
        ensures OwnExitAt(ours, start, steps, i) == OwnExitAt(ours, start, front, i)
      {
        assert steps[..i] == front[..i] && steps[i] == front[i];
      }
      assert front[..|front|] == front;
      assert OwnExitAt(ours, start, steps, |front|) == AnnouncesOwnExit(ours, s, last);
      if OwnPortsListed(ours, s) {
        RunVirtualPorts(ours, start, front);
        OwnPortsNext(ours, s, last);
      }
    }
  }

  lemma OwnPortsStart(ours: I32, start: Registry)
    requires Initial(ours, start)
    ensures OwnPortsListed(ours, Execute(ours, start, []))
  {
  }

  lemma OwnPortsNext(ours: I32, s: Registry, step: Step)
    requires VirtualPortsOk(ours, s) && OwnPortsListed(ours, s)
    ensures OwnPortsListed(ours, Next(ours, s, step)) <==> !AnnouncesOwnExit(ours, s, step)
  {
    hide OwnPortsListed, VirtualPortsOk;
    if Possible(s, step) {
      OwnPortsStep(ours, s, step);
    }
  }

  lemma ValuesInsertOk(ours: I32, s: Registry, m: map<nat, I32>, id: nat, port: I32)
    requires VirtualPortsOk(ours, s) && (m == s.vsrcSend || m == s.vdestPorts)
    requires id !in m && port !in m.Values
    ensures m[id := port].Values == m.Values + {port}
  {
    ValuesInsert(m, id, port);
  }

  lemma ValuesRemoveOk(ours: I32, s: Registry, m: map<nat, I32>, id: nat)
    requires VirtualPortsOk(ours, s) && (m == s.vsrcSend || m == s.vdestPorts) && id in m
    ensures (m - {id}).Values == m.Values - {m[id]}
  {
    ValuesRemove(m, id);
  }

  /**
    The run that goes wrong: a virtual source is destroyed, its port number is reused for a new one, and only then is
    the exit of the old port read. The new source is live but no longer listed.
    */
  lemma StaleExitHidesPort(ours: I32, start: Registry, port: I32)
    requires Initial(ours, start)
    ensures var s := Execute(ours, start, [CreateVirtualSource(0, "a", Ok(port)), DestroyVirtualSource(0),
                                           CreateVirtualSource(1, "b", Ok(port)), PortExit(PortKey(ours, port))]);
            1 in s.vsrcSend && s.vsrcSend[1] == port && PortKey(ours, port) !in s.sources.cache
  {
    hide Deliver, KeyToId, PortToKey;
    var steps := [CreateVirtualSource(0, "a", Ok(port)), DestroyVirtualSource(0),
                  CreateVirtualSource(1, "b", Ok(port)), PortExit(PortKey(ours, port))];
    assert steps[..4][..3] == steps[..3] && steps[..3][..2] == steps[..2] && steps[..2][..1] == steps[..1];
    var s1 := Next(ours, start, steps[0]);
    assert Execute(ours, start, steps[..1]) == s1 by { assert steps[..1][..0] == []; }
    var s2 := Next(ours, s1, steps[1]);
    assert Execute(ours, start, steps[..2]) == s2;
    assert s2.vsrcSend == map[];
    var s3 := Next(ours, s2, steps[2]);
    assert Execute(ours, start, steps[..3]) == s3;
    assert steps[..4] == steps;
  }
}
