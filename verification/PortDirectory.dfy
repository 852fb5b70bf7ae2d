/**
  One side of the port registry, sources or destinations: the cache of known ports, the changes announced, and the
  subscribers who receive them.
  */
module PortDirectory {
  import opened Bytes

  type I32 = x: int | -0x8000_0000 <= x < 0x8000_0000

  const TWO_32: int := 0x1_0000_0000
  const DYNAMIC_CLIENTS_BEGIN: int := 128

  datatype PortKey = PortKey(client: I32, port: I32)

  datatype Port = Port(id: U64, name: string, isVirtual: bool)

  datatype Change = Added(port: Port) | Removed(port: Port)

  /** One subscription's channel; `since` is how many changes had been announced when it was made. */
  datatype Subscriber = Subscriber(id: nat, open: bool, since: nat, inbox: seq<Change>)

  /** `joined` is how many subscriptions there have ever been, and the id of the next one. */
  datatype Directory = Directory(cache: map<PortKey, Port>, log: seq<Change>, subs: seq<Subscriber>, joined: nat)

  // ---- Keys and ids ---------------------------------------------------------------------------

  /** `as u32`: two's complement. */
  function ToU32(x: I32): (r: int)
    ensures 0 <= r < TWO_32
  {
    if x < 0 then x + TWO_32 else x
  }

  function ToI32(x: int): I32
    requires 0 <= x < TWO_32
  {
    if x < 0x8000_0000 then x else x - TWO_32
  }

  function KeyToId(key: PortKey): U64 {
    ToU32(key.client) * TWO_32 + ToU32(key.port)
  }

  function PortToKey(id: U64): PortKey {
    PortKey(ToI32(id / TWO_32), ToI32(id % TWO_32))
  }

  /**
    Ids and keys, negative halves included, correspond one to one: the client number, modulo 2^32, is the upper half
    of the id and the port number the lower.
    */
  lemma KeyIdRoundTrip(key: PortKey, id: U64)
    ensures PortToKey(KeyToId(key)) == key
    ensures KeyToId(PortToKey(id)) == id
    ensures (KeyToId(key) - key.port) % 0x1_0000_0000 == 0
    ensures (KeyToId(key) / 0x1_0000_0000 - key.client) % 0x1_0000_0000 == 0
  {
    assert id == id / TWO_32 * TWO_32 + id % TWO_32;
    var high, low := ToU32(key.client), ToU32(key.port);
    assert (high * TWO_32 + low) / TWO_32 == high;
  }

  function FromAlsa(key: PortKey, name: string): Port {
    Port(KeyToId(key), name, key.client >= DYNAMIC_CLIENTS_BEGIN)
  }

  // ---- Operations -----------------------------------------------------------------------------

  /** Delivers a change to every subscriber that still listens and forgets the others. */
  function Deliver(subs: seq<Subscriber>, change: Change): seq<Subscriber> {
    if subs == [] then []
    else
      var sub := subs[0];
      (if sub.open then [sub.(inbox := sub.inbox + [change])] else []) + Deliver(subs[1..], change)
  }

  /** Positions in increasing order, which are all those of subscribers that still listen. */
  ghost predicate Listening(at: seq<nat>, subs: seq<Subscriber>) {
    && (forall j, k | 0 <= j < k < |at| :: at[j] < at[k])
    && (forall j | 0 <= j < |at| :: at[j] < |subs|)
    && (forall i | 0 <= i < |subs| :: i in at <==> subs[i].open)
  }

  /** `kept` are the subscribers that listen, in order, each with the change added to its inbox; and nobody else. */
  ghost predicate Told(subs: seq<Subscriber>, kept: seq<Subscriber>, change: Change) {
    exists at: seq<nat> | Listening(at, subs) :: IsTold(at, subs, kept, change)
  }

  ghost predicate IsTold(at: seq<nat>, subs: seq<Subscriber>, kept: seq<Subscriber>, change: Change)
    requires Listening(at, subs)
  {
    && |kept| == |at|
    && forall j | 0 <= j < |at| :: kept[j] == subs[at[j]].(inbox := subs[at[j]].inbox + [change])
  }

  lemma TellOne(at: seq<nat>, subs: seq<Subscriber>, kept: seq<Subscriber>, change: Change, sub: Subscriber)
    requires Listening(at, subs) && IsTold(at, subs, kept, change)
    ensures var at' := if sub.open then at + [|subs|] else at;
            && Listening(at', subs + [sub])
            && IsTold(at', subs + [sub],
                      if sub.open then kept + [sub.(inbox := sub.inbox + [change])] else kept, change)
  {
    var longer := if sub.open then at + [|subs|] else at;
    forall i | 0 <= i < |subs + [sub]|
      ensures i in longer <==> (subs + [sub])[i].open
    {
      if i < |subs| {
        assert i in at <==> subs[i].open;
      }
    }
  }

  lemma {:induction false} DeliverSnoc(subs: seq<Subscriber>, change: Change, sub: Subscriber)
    ensures Deliver(subs + [sub], change)
            == Deliver(subs, change) + if sub.open then [sub.(inbox := sub.inbox + [change])] else []
  {
    if subs == [] {
    } else {
      assert (subs + [sub])[1..] == subs[1..] + [sub];
      DeliverSnoc(subs[1..], change, sub);
    }
  }

  lemma {:induction false} DeliverTells(subs: seq<Subscriber>, change: Change) returns (at: seq<nat>)
    ensures Listening(at, subs) && IsTold(at, subs, Deliver(subs, change), change)
  {
    if subs == [] {
      at := [];
    } else {
      var front, sub := subs[..|subs| - 1], subs[|subs| - 1];
      assert subs == front + [sub];
      var at' := DeliverTells(front, change);
      TellOne(at', front, Deliver(front, change), change, sub);
      DeliverSnoc(front, change, sub);
      at := if sub.open then at' + [|front|] else at';
    }
  }

  /** The loop by which the source retains the subscribers whose channel accepted the change. */
  method PruneSend(subs: seq<Subscriber>, change: Change) returns (kept: seq<Subscriber>)
    ensures Told(subs, kept, change)
    ensures kept == Deliver(subs, change)
  {
    kept := [];
    var i := 0;
    while i < |subs|
      invariant 0 <= i <= |subs|
      invariant kept + Deliver(subs[i..], change) == Deliver(subs, change)
    {
      var sub := subs[i];
      assert subs[i..][1..] == subs[i + 1..];
      if sub.open {
        kept := kept + [sub.(inbox := sub.inbox + [change])];
      }
      i := i + 1;
    }
    ghost var at := DeliverTells(subs, change);
  }

  function Announce(d: Directory, change: Change): Directory {
    d.(log := d.log + [change], subs := Deliver(d.subs, change))
  }

  function Add(d: Directory, key: PortKey, port: Port): Directory {
    Announce(d.(cache := d.cache[key := port]), Added(port))
  }

  function Remove(d: Directory, key: PortKey): Directory {
    if key in d.cache then Announce(d.(cache := d.cache - {key}), Removed(d.cache[key])) else d
  }

  function RemoveAll(d: Directory, keys: seq<PortKey>): Directory {
    if keys == [] then d else Remove(RemoveAll(d, keys[..|keys| - 1]), keys[|keys| - 1])
  }

  function Subscribe(d: Directory): Directory {
    d.(subs := d.subs + [Subscriber(d.joined, true, |d.log|, [])], joined := d.joined + 1)
  }

  /** The receiver of a subscription goes away; its entry stays until the next change is sent. */
  function Closed(subs: seq<Subscriber>, id: nat): seq<Subscriber> {
    seq(|subs|, i requires 0 <= i < |subs| => if subs[i].id == id then subs[i].(open := false) else subs[i])
  }

  function HangUp(d: Directory, id: nat): Directory {
    d.(subs := Closed(d.subs, id))
  }

  // ---- What a client computes -----------------------------------------------------------------

  /** A client's picture of the ports, by id. */
  type View = map<U64, Port>

  function ApplyChange(view: View, change: Change): View {
    match change
    case Added(port) => view[port.id := port]
    case Removed(port) => view - {port.id}
  }

  function Replay(view: View, changes: seq<Change>): View {
    if changes == [] then view
    else ApplyChange(Replay(view, changes[..|changes| - 1]), changes[|changes| - 1])
  }

  /** The listing of a cache, by id. */
  function Listing(cache: map<PortKey, Port>): View {
    map id | id in (set key <- cache.Keys :: KeyToId(key)) && PortToKey(id) in cache :: cache[PortToKey(id)]
  }

  function Look(view: View, id: U64): Option<Port> {
    if id in view then Some(view[id]) else None
  }

  lemma LooksEqual(v: View, w: View)
    requires forall id: U64 :: Look(v, id) == Look(w, id)
    ensures v == w
  {
    forall id: U64
      ensures id in v <==> id in w
      ensures id in v ==> v[id] == w[id]
    {
      assert Look(v, id) == Look(w, id);
    }
  }

  lemma ListingAt(cache: map<PortKey, Port>, key: PortKey)
    ensures KeyToId(key) in Listing(cache) <==> key in cache
    ensures key in cache ==> Listing(cache)[KeyToId(key)] == cache[key]
  {
    KeyIdRoundTrip(key, 0);
  }

  lemma ListingAdd(cache: map<PortKey, Port>, key: PortKey, port: Port)
    ensures Listing(cache[key := port]) == Listing(cache)[KeyToId(key) := port]
  {
    hide Listing, KeyToId, PortToKey;
    var after, expected := Listing(cache[key := port]), Listing(cache)[KeyToId(key) := port];
    forall id: U64
      ensures Look(after, id) == Look(expected, id)
    {
      KeyIdRoundTrip(key, id);
      ListingAt(cache[key := port], PortToKey(id));
      ListingAt(cache, PortToKey(id));
    }
    LooksEqual(after, expected);
  }

  lemma ListingRemove(cache: map<PortKey, Port>, key: PortKey)
    ensures Listing(cache - {key}) == Listing(cache) - {KeyToId(key)}
  {
    hide Listing, KeyToId, PortToKey;
    var after, expected := Listing(cache - {key}), Listing(cache) - {KeyToId(key)};
    forall id: U64
      ensures Look(after, id) == Look(expected, id)
    {
      KeyIdRoundTrip(key, id);
      ListingAt(cache - {key}, PortToKey(id));
      ListingAt(cache, PortToKey(id));
    }
    LooksEqual(after, expected);
  }

  // ---- The invariant --------------------------------------------------------------------------

  /**
    The changes announced agree with the cache, and every open subscriber has received exactly the changes announced
    since it joined. `base` is the listing before the first change.
    */
  ghost predicate Agrees(d: Directory, base: View) {
    && (forall key <- d.cache :: d.cache[key].id == KeyToId(key))
    && Listing(d.cache) == Replay(base, d.log)
    && Current(d.subs, d.log)
    && (forall i | 0 <= i < |d.subs| :: d.subs[i].id < d.joined)
    && Distinct(d.subs)
  }

  ghost predicate Current(subs: seq<Subscriber>, log: seq<Change>) {
    forall sub <- subs :: sub.since <= |log| && (sub.open ==> sub.inbox == log[sub.since..])
  }

  ghost predicate Distinct(subs: seq<Subscriber>) {
    forall i, j | 0 <= i < j < |subs| :: subs[i].id != subs[j].id
  }

  lemma ReplaySnoc(view: View, changes: seq<Change>, change: Change)
    ensures Replay(view, changes + [change]) == ApplyChange(Replay(view, changes), change)
  {
    assert (changes + [change])[..|changes|] == changes;
  }

  /** Who is told was there before and listening, and everyone who was is told. */
  lemma {:induction false} DeliverHas(subs: seq<Subscriber>, change: Change, sub: Subscriber)
    ensures sub in subs && sub.open ==> sub.(inbox := sub.inbox + [change]) in Deliver(subs, change)
    ensures forall told <- Deliver(subs, change) ::
              exists was <- subs :: was.open && told == was.(inbox := was.inbox + [change])
  {
    if subs == [] {
    } else {
      DeliverHas(subs[1..], change, sub);
      var rest := Deliver(subs[1..], change);
      forall told <- Deliver(subs, change)
        ensures exists was <- subs :: was.open && told == was.(inbox := was.inbox + [change])
      {
        if told in rest {
          var was :| was in subs[1..] && was.open && told == was.(inbox := was.inbox + [change]);
          assert was in subs;
        } else {
          assert subs[0] in subs && told == subs[0].(inbox := subs[0].inbox + [change]);
        }
      }
    }
  }

  lemma DeliverCurrent(subs: seq<Subscriber>, log: seq<Change>, change: Change)
    requires Current(subs, log)
    ensures Current(Deliver(subs, change), log + [change])
  {
    forall told <- Deliver(subs, change)
      ensures told.since <= |log + [change]| && (told.open ==> told.inbox == (log + [change])[told.since..])
    {
      DeliverHas(subs, change, told);
      var was :| was in subs && was.open && told == was.(inbox := was.inbox + [change]);
      assert log[was.since..] + [change] == (log + [change])[was.since..];
    }
  }

  lemma {:induction false} DeliverDistinct(subs: seq<Subscriber>, change: Change)
    requires Distinct(subs)
    ensures Distinct(Deliver(subs, change))
    ensures forall told <- Deliver(subs, change) :: exists i | 0 <= i < |subs| :: subs[i].id == told.id
  {
    if subs == [] {
    } else {
      DeliverDistinct(subs[1..], change);
      forall told <- Deliver(subs[1..], change)
        ensures told.id != subs[0].id && exists i | 0 <= i < |subs| :: subs[i].id == told.id
      {
        var i :| 0 <= i < |subs[1..]| && subs[1..][i].id == told.id;
        assert subs[i + 1].id == told.id;
      }
    }
  }

  lemma DeliverAgrees(d: Directory, change: Change)
    requires Current(d.subs, d.log) && Distinct(d.subs) && forall i | 0 <= i < |d.subs| :: d.subs[i].id < d.joined
    ensures var subs := Deliver(d.subs, change);
            && Current(subs, d.log + [change]) && Distinct(subs)
            && forall i | 0 <= i < |subs| :: subs[i].id < d.joined
  {
    hide Current, Distinct, Deliver;
    DeliverCurrent(d.subs, d.log, change);
    DeliverDistinct(d.subs, change);
  }

  lemma AddAgrees(d: Directory, base: View, key: PortKey, port: Port)
    requires Agrees(d, base) && port.id == KeyToId(key)
    ensures Agrees(Add(d, key, port), base)
  {
    ListingAdd(d.cache, key, port);
    ReplaySnoc(base, d.log, Added(port));
    DeliverAgrees(d, Added(port));
  }

  lemma RemoveAgrees(d: Directory, base: View, key: PortKey)
    requires Agrees(d, base)
    ensures Agrees(Remove(d, key), base)
  {
    if key in d.cache {
      var change := Removed(d.cache[key]);
      ListingRemove(d.cache, key);
      ReplaySnoc(base, d.log, change);
      DeliverAgrees(d, change);
    }
  }

  lemma SubscribersAgree(d: Directory, base: View, id: nat)
    requires Agrees(d, base)
    ensures Agrees(Subscribe(d), base) && Agrees(HangUp(d, id), base)
  {
  }

  /** The removals announced for a list of keys. */
  function Removals(cache: map<PortKey, Port>, keys: seq<PortKey>): seq<Change>
    requires forall k <- keys :: k in cache
  {
    seq(|keys|, i requires 0 <= i < |keys| => Removed(cache[keys[i]]))
  }

  lemma RemovalsNone(cache: map<PortKey, Port>)
    ensures Removals(cache, []) == []
  {
  }

  lemma RemovalsSnoc(cache: map<PortKey, Port>, keys: seq<PortKey>, last: PortKey)
    requires (forall k <- keys :: k in cache) && last in cache
    ensures forall k <- keys + [last] :: k in cache
    ensures Removals(cache, keys + [last]) == Removals(cache, keys) + [Removed(cache[last])]
  {
  }

  lemma RemoveCached(d: Directory, key: PortKey)
    requires key in d.cache
    ensures Remove(d, key).cache == d.cache - {key} && Remove(d, key).log == d.log + [Removed(d.cache[key])]
  {
  }

  /** Removing several distinct cached keys: exactly those go, each announced once, in that order. */
  lemma {:induction false} RemoveAllExact(d: Directory, keys: seq<PortKey>)
    requires forall k <- keys :: k in d.cache
    requires forall i, j | 0 <= i < j < |keys| :: keys[i] != keys[j]
    ensures RemoveAll(d, keys).cache == d.cache - (set k <- keys)
    ensures RemoveAll(d, keys).log == d.log + Removals(d.cache, keys)
  {
    hide Remove, Removals;
    if keys == [] {
      RemovalsNone(d.cache);
      assert (set k <- keys) == {};
    } else {
      var front, last := keys[..|keys| - 1], keys[|keys| - 1];
      assert keys == front + [last];
      RemoveAllExact(d, front);
      assert last in RemoveAll(d, front).cache;
      RemoveCached(RemoveAll(d, front), last);
      RemovalsSnoc(d.cache, front, last);
      assert (set k <- keys) == (set k <- front) + {last};
    }
  }

  // ---- Subscribe, then list -------------------------------------------------------------------

  /** The last thing a list of changes says about an id: nothing, or the port it leaves there, if any. */
  function LastWord(changes: seq<Change>, id: U64): Option<Option<Port>> {
    if changes == [] then None
    else
      match changes[|changes| - 1]
      case Added(port) => if port.id == id then Some(Some(port)) else LastWord(changes[..|changes| - 1], id)
      case Removed(port) => if port.id == id then Some(None) else LastWord(changes[..|changes| - 1], id)
  }

  lemma {:induction false} ReplayLook(view: View, changes: seq<Change>, id: U64)
    ensures Look(Replay(view, changes), id)
            == match LastWord(changes, id) case Some(word) => word case None => Look(view, id)
  {
    if changes == [] {
    } else {
      ReplayLook(view, changes[..|changes| - 1], id);
    }
  }

  lemma {:induction false} ReplayConcat(view: View, xs: seq<Change>, ys: seq<Change>)
    ensures Replay(view, xs + ys) == Replay(Replay(view, xs), ys)
  {
    if ys == [] {
      assert xs + ys == xs;
    } else {
      var front, last := ys[..|ys| - 1], ys[|ys| - 1];
      assert xs + ys == (xs + front) + [last];
      ReplayConcat(view, xs, front);
      ReplaySnoc(view, xs + front, last);
      assert ys == front + [last];
    }
  }

  /** Hearing again changes already reflected in the listing does no harm. */
  lemma ReplayTwice(view: View, changes: seq<Change>)
    ensures Replay(Replay(view, changes), changes) == Replay(view, changes)
  {
    forall id: U64
      ensures Look(Replay(Replay(view, changes), changes), id) == Look(Replay(view, changes), id)
    {
      ReplayLook(Replay(view, changes), changes, id);
      ReplayLook(view, changes, id);
    }
    LooksEqual(Replay(Replay(view, changes), changes), Replay(view, changes));
  }

  /**
    A client that subscribes and lists later: replaying all it has received over the listing gives exactly the
    current ports. `listed` is the directory when the list was taken, `now` any later one.
    */
  lemma Converges(base: View, listed: Directory, now: Directory, sub: Subscriber)
    requires Agrees(listed, base) && Agrees(now, base)
    requires listed.log <= now.log
    requires sub in now.subs && sub.open && sub.since <= |listed.log|
    ensures Replay(Listing(listed.cache), sub.inbox) == Listing(now.cache)
  {
    hide Replay, Listing, KeyToId;
    var early, heard := now.log[..sub.since], listed.log[sub.since..];
    var later := now.log[|listed.log|..];
    assert sub.inbox == heard + later;
    assert listed.log == early + heard;
    assert now.log == listed.log + later;
    var old' := Replay(base, early);
    ReplayConcat(base, early, heard);
    ReplayConcat(base, listed.log, later);
    ReplayTwice(old', heard);
    ReplayConcat(Replay(old', heard), heard, later);
  }
}
