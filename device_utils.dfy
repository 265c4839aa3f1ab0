/**
 * Bluetooth service lookup and the write path to GATT characteristics.
 *
 * The five service and characteristic UUIDs are fixed strings; each `GetX`
 * lookup is a first-match search of a service list for one of them. Writes
 * go through one channel that keeps a cache of fitness-machine
 * characteristics by name: a cached one is written directly, anything else
 * is looked up on the server first (service, a 100 ms pause, characteristic,
 * another 100 ms pause, then the write). Writes are chained one after the
 * other and a failed write does not stop the next one, so the channel is
 * modelled as running each write to completion in call order.
 */
module DeviceUtils {
  import opened Wrappers

  const FtmsUuid: string := "00001826-0000-1000-8000-00805f9b34fb"
  const CpsUuid: string := "00001818-0000-1000-8000-00805f9b34fb"
  const KickrServiceUuid: string := "a026ee01-0a7d-4ab3-97fa-f1500f9feb8b"
  const KickrWriteCharacteristicUuid: string := "a026e005-0a7d-4ab3-97fa-f1500f9feb8b"
  const HrmUuid: string := "0000180d-0000-1000-8000-00805f9b34fb"

  /** A primary service a GATT server offers; `handle` tells two services with one UUID apart. */
  datatype Service = Service(uuid: string, handle: nat)

  /** Whether some service in the list has this UUID. */
  predicate Offers(services: seq<Service>, uuid: string) {
    exists i :: 0 <= i < |services| && services[i].uuid == uuid
  }

  /** The first service of the list with this UUID, or None when there is none. */
  function FindService(services: seq<Service>, uuid: string): (r: Option<Service>)
    ensures r.None? <==> !Offers(services, uuid)
    ensures r.Some? ==> exists i :: 0 <= i < |services| && services[i] == r.value && r.value.uuid == uuid
                          && forall j :: 0 <= j < i ==> services[j].uuid != uuid
  {
    if |services| == 0 then None
    else if services[0].uuid == uuid then Some(services[0])
    else
      var rest := FindService(services[1..], uuid);
      if rest.Some? then
        ghost var i :| 0 <= i < |services[1..]| && services[1..][i] == rest.value && rest.value.uuid == uuid
                       && forall j :: 0 <= j < i ==> services[1..][j].uuid != uuid;
        assert services[i + 1] == rest.value;
        rest
      else
        assert forall i :: 1 <= i < |services| ==> services[i] == services[1..][i - 1];
        rest
  }

  function GetFtms(services: seq<Service>): Option<Service> { FindService(services, FtmsUuid) }
  function GetHrm(services: seq<Service>): Option<Service> { FindService(services, HrmUuid) }
  function GetCps(services: seq<Service>): Option<Service> { FindService(services, CpsUuid) }
  function GetKickrService(services: seq<Service>): Option<Service> { FindService(services, KickrServiceUuid) }

  /** The five UUIDs are pairwise different. */
  lemma UuidsDistinct()
    ensures FtmsUuid != CpsUuid && FtmsUuid != KickrServiceUuid && FtmsUuid != KickrWriteCharacteristicUuid
    ensures FtmsUuid != HrmUuid && CpsUuid != KickrServiceUuid && CpsUuid != KickrWriteCharacteristicUuid
    ensures CpsUuid != HrmUuid && KickrServiceUuid != KickrWriteCharacteristicUuid
    ensures KickrServiceUuid != HrmUuid && KickrWriteCharacteristicUuid != HrmUuid
  {
    assert FtmsUuid[7] == '6' && CpsUuid[7] == '8' && HrmUuid[6] == '0' && HrmUuid[7] == 'd';
    assert KickrServiceUuid[0] == 'a' && KickrWriteCharacteristicUuid[0] == 'a' && FtmsUuid[0] == '0';
    assert KickrServiceUuid[4] == 'e' && KickrWriteCharacteristicUuid[4] == 'e';
    assert KickrServiceUuid[5] == 'e' && KickrWriteCharacteristicUuid[5] == '0';
  }

  /**
   * Each lookup answers with a service of its own UUID, and no service is the
   * answer to two different lookups.
   */
  lemma LookupsDisjoint(services: seq<Service>)
    ensures GetFtms(services).Some? ==> GetFtms(services).value.uuid == FtmsUuid
    ensures GetHrm(services).Some? ==> GetHrm(services).value.uuid == HrmUuid
    ensures GetCps(services).Some? ==> GetCps(services).value.uuid == CpsUuid
    ensures GetKickrService(services).Some? ==> GetKickrService(services).value.uuid == KickrServiceUuid
    ensures var found := [GetFtms(services), GetHrm(services), GetCps(services), GetKickrService(services)];
            forall a, b :: 0 <= a < b < 4 && found[a].Some? && found[b].Some? ==> found[a].value != found[b].value
  {
    UuidsDistinct();
  }

  /** What the server holds under a characteristic name: an identity and whether it accepts writes. */
  datatype CharHandle = CharHandle(handle: nat, acceptsWrites: bool)

  /** The part of a connected GATT server the model sees. */
  datatype GattServer = GattServer(primaryServices: seq<Service>, characteristics: map<string, map<string, CharHandle>>)

  /** A characteristic obtained from a service lookup, remembering which service and name it came from. */
  datatype Characteristic = Characteristic(serviceName: string, charName: string, handle: nat, acceptsWrites: bool)

  /** The only service whose characteristics are cached. */
  const FitnessMachine: string := "fitness_machine"
  const WriteDelayMs: nat := 100

  datatype WriteRequest = WriteRequest(serviceName: string, charName: string, data: seq<bv8>)

  /** The steps a write performs on the server, in order. */
  datatype Event =
    | ServiceLookup(serviceName: string)
    | Delay(ms: nat)
    | CharLookup(serviceName: string, charName: string)
    | WriteValue(target: Characteristic, data: seq<bv8>)
    | PreviousFailureLogged

  datatype WriteOutcome = Written | ServiceNotFound | CharacteristicNotFound | WriteRejected

  /** How the write queue's last operation settled. */
  datatype QueueState = Resolved | Rejected

  /** A write that fails in any way rejects the queue. */
  function Settle(outcome: WriteOutcome): (q: QueueState)
    ensures q == Resolved <==> outcome == Written
  {
    if outcome == Written then Resolved else Rejected
  }

  datatype Step = Step(cache: map<string, Characteristic>, events: seq<Event>, outcome: WriteOutcome)

  function WriteTo(ch: Characteristic): WriteOutcome {
    if ch.acceptsWrites then Written else WriteRejected
  }

  /** One write, run to completion from the given cache. */
  function WriteStep(cache: map<string, Characteristic>, server: GattServer, req: WriteRequest): Step {
    if req.serviceName == FitnessMachine && req.charName in cache then
      var ch := cache[req.charName];
      Step(cache, [WriteValue(ch, req.data)], WriteTo(ch))
    else if req.serviceName !in server.characteristics then
      Step(cache, [ServiceLookup(req.serviceName)], ServiceNotFound)
    else if req.charName !in server.characteristics[req.serviceName] then
      Step(cache, [ServiceLookup(req.serviceName), Delay(WriteDelayMs), CharLookup(req.serviceName, req.charName)],
           CharacteristicNotFound)
    else
      var h := server.characteristics[req.serviceName][req.charName];
      var ch := Characteristic(req.serviceName, req.charName, h.handle, h.acceptsWrites);
      var cache' := if req.serviceName == FitnessMachine then cache[req.charName := ch] else cache;
      Step(cache',
           [ServiceLookup(req.serviceName), Delay(WriteDelayMs), CharLookup(req.serviceName, req.charName),
            Delay(WriteDelayMs), WriteValue(ch, req.data)],
           WriteTo(ch))
  }

  /** Every cached characteristic was looked up on the fitness-machine service under its own name. */
  predicate CacheHoldsFitnessMachine(cache: map<string, Characteristic>) {
    forall name :: name in cache ==> cache[name].serviceName == FitnessMachine && cache[name].charName == name
  }

  /**
   * A write adds at most one entry to the cache, only for the fitness-machine
   * service and only under the written name, and that entry is what the
   * server holds there; other entries stay as they were.
   */
  lemma WriteStepCache(cache: map<string, Characteristic>, server: GattServer, req: WriteRequest)
    ensures var s := WriteStep(cache, server, req);
            && cache.Keys <= s.cache.Keys
            && (forall name :: name in s.cache && name != req.charName ==> name in cache && s.cache[name] == cache[name])
            && (req.serviceName != FitnessMachine ==> s.cache == cache)
            && (req.charName in s.cache && req.charName !in cache ==>
                  && req.serviceName == FitnessMachine
                  && req.serviceName in server.characteristics
                  && req.charName in server.characteristics[req.serviceName]
                  && s.cache[req.charName].handle == server.characteristics[req.serviceName][req.charName].handle)
    ensures CacheHoldsFitnessMachine(cache) ==> CacheHoldsFitnessMachine(WriteStep(cache, server, req).cache)
  {
  }

  /** A write to any service other than the fitness machine always starts with a service lookup. */
  lemma OtherServicesAlwaysLookUp(cache: map<string, Characteristic>, server: GattServer, req: WriteRequest)
    requires req.serviceName != FitnessMachine
    ensures var s := WriteStep(cache, server, req);
            |s.events| >= 1 && s.events[0] == ServiceLookup(req.serviceName) && s.cache == cache
  {
  }

  /** A cached fitness-machine characteristic is written directly, without asking the server. */
  lemma CacheHitSkipsLookup(cache: map<string, Characteristic>, server: GattServer, req: WriteRequest)
    requires req.serviceName == FitnessMachine && req.charName in cache
    ensures var s := WriteStep(cache, server, req);
            && s.events == [WriteValue(cache[req.charName], req.data)]
            && s.cache == cache
            && (s.outcome == Written <==> cache[req.charName].acceptsWrites)
  {
  }

  /**
   * Once a fitness-machine characteristic has been found on the server, the
   * next write to it, from whatever server, goes straight to that same
   * characteristic.
   */
  lemma SecondFitnessWriteHitsCache(cache: map<string, Characteristic>, server: GattServer, server2: GattServer,
                                    req: WriteRequest, data2: seq<bv8>)
    requires req.serviceName == FitnessMachine
    requires WriteStep(cache, server, req).outcome in {Written, WriteRejected}
    ensures var s1 := WriteStep(cache, server, req);
            var s2 := WriteStep(s1.cache, server2, req.(data := data2));
            && s1.events[|s1.events| - 1].WriteValue?
            && s2.events == [WriteValue(s1.events[|s1.events| - 1].target, data2)]
  {
  }

  /** The channel state after a series of writes, the events they caused and each write's outcome. */
  datatype Run = Run(cache: map<string, Characteristic>, queue: QueueState, events: seq<Event>, outcomes: seq<WriteOutcome>)

  /** Runs the writes one after the other; each starts from the cache and the queue the previous one left. */
  function RunWrites(cache: map<string, Characteristic>, queue: QueueState, server: GattServer,
                     reqs: seq<WriteRequest>): (r: Run)
    ensures |r.outcomes| == |reqs|
    decreases |reqs|
  {
    if |reqs| == 0 then Run(cache, queue, [], [])
    else RunThen(RunWrites(cache, queue, server, reqs[..|reqs| - 1]), server, reqs[|reqs| - 1])
  }

  /** The events of the queue's catch handler: a rejected queue logs the failure and is then resolved. */
  function Caught(queue: QueueState): (events: seq<Event>)
    ensures |events| == 0 <==> queue == Resolved
  {
    match queue
    case Rejected => [PreviousFailureLogged]
    case Resolved => []
  }

  /**
   * Extends a run by one write: the queue's failure, if any, is caught first,
   * then the write is made from the cache the run left and settles the queue.
   */
  function RunThen(r: Run, server: GattServer, req: WriteRequest): (r': Run)
    ensures |r'.outcomes| == |r.outcomes| + 1 && r'.outcomes[..|r.outcomes|] == r.outcomes
    ensures |r'.events| > |r.events| && r'.events[..|r.events|] == r.events
    ensures r'.queue == Settle(r'.outcomes[|r.outcomes|])
  {
    var s := WriteStep(r.cache, server, req);
    Run(s.cache, Settle(s.outcome), r.events + Caught(r.queue) + s.events, r.outcomes + [s.outcome])
  }

  /** What one more write does depends only on the cache and the queue, not on the events and outcomes before it. */
  lemma RunThenPrefix(r: Run, events: seq<Event>, outcomes: seq<WriteOutcome>, server: GattServer, req: WriteRequest)
    ensures var t := RunThen(r, server, req);
            RunThen(Run(r.cache, r.queue, events + r.events, outcomes + r.outcomes), server, req)
              == Run(t.cache, t.queue, events + t.events, outcomes + t.outcomes)
  {
    var s := WriteStep(r.cache, server, req);
    var c := Caught(r.queue);
    assert (events + r.events) + c + s.events == events + (r.events + c + s.events);
    assert (outcomes + r.outcomes) + [s.outcome] == outcomes + (r.outcomes + [s.outcome]);
  }

  /**
   * Writes run in call order: running `a` then `b` is running `a` and then
   * running `b` from the cache and the queue `a` left.
   */
  lemma {:induction false} RunWritesAppend(cache: map<string, Characteristic>, queue: QueueState, server: GattServer,
                                           a: seq<WriteRequest>, b: seq<WriteRequest>)
    ensures var ra := RunWrites(cache, queue, server, a);
            var rb := RunWrites(ra.cache, ra.queue, server, b);
            RunWrites(cache, queue, server, a + b) == Run(rb.cache, rb.queue, ra.events + rb.events, ra.outcomes + rb.outcomes)
    decreases |b|
  {
    if |b| == 0 {
      assert a + b == a;
    } else {
      var b' := b[..|b| - 1];
      var last := b[|b| - 1];
      assert (a + b)[..|a + b| - 1] == a + b';
      assert (a + b)[|a + b| - 1] == last;
      RunWritesAppend(cache, queue, server, a, b');
      var ra := RunWrites(cache, queue, server, a);
      RunThenPrefix(RunWrites(ra.cache, ra.queue, server, b'), ra.events, ra.outcomes, server, last);
    }
  }

  /**
   * The queue after a series of writes is rejected exactly when the last
   * write failed; with no writes it is as it was.
   */
  lemma RunWritesQueue(cache: map<string, Characteristic>, queue: QueueState, server: GattServer, reqs: seq<WriteRequest>)
    ensures var r := RunWrites(cache, queue, server, reqs);
            r.queue == if reqs == [] then queue else Settle(r.outcomes[|reqs| - 1])
  {
  }

  /**
   * A rejected queue does not hold up the next write: the failure is logged
   * and the write then runs in full, with the same cache, events, outcome and
   * settled queue as after a resolved queue.
   */
  lemma RejectedQueueStillWrites(r: Run, server: GattServer, req: WriteRequest)
    requires r.queue == Rejected
    ensures var t := RunThen(r.(queue := Resolved), server, req);
            var u := RunThen(r, server, req);
            && u.cache == t.cache && u.queue == t.queue && u.outcomes == t.outcomes
            && u.events == r.events + [PreviousFailureLogged] + t.events[|r.events|..]
  {
    var s := WriteStep(r.cache, server, req);
    assert RunThen(r.(queue := Resolved), server, req).events == r.events + s.events;
    assert RunThen(r, server, req).events == r.events + [PreviousFailureLogged] + s.events;
    assert (r.events + s.events)[|r.events|..] == s.events;
  }

  /**
   * After a write that failed, the next write still runs in full: its
   * events are the logged failure followed by every event of the write
   * made from the cache the failure left.
   */
  lemma FailureDoesNotBlock(cache: map<string, Characteristic>, queue: QueueState, server: GattServer,
                            before: seq<WriteRequest>, next: WriteRequest)
    requires |before| > 0 && RunWrites(cache, queue, server, before).outcomes[|before| - 1] != Written
    ensures var ra := RunWrites(cache, queue, server, before);
            var s := WriteStep(ra.cache, server, next);
            RunWrites(cache, queue, server, before + [next])
              == Run(s.cache, Settle(s.outcome), ra.events + [PreviousFailureLogged] + s.events, ra.outcomes + [s.outcome])
  {
    RunWritesQueue(cache, queue, server, before);
    assert (before + [next])[..|before|] == before;
  }

  /**
   * The write channel: the fitness-machine cache and, as a record of what has
   * happened, every event on the server so far.
   */
  class WriteChannel {
    var cache: map<string, Characteristic>
    var queue: QueueState
    var log: seq<Event>

    ghost predicate Valid()
      reads this
    {
      CacheHoldsFitnessMachine(cache)
    }

    constructor ()
      ensures Valid() && cache == map[] && queue == Resolved && log == []
    {
      cache := map[];
      queue := Resolved;
      log := [];
    }

    /** A new connection starts with an empty cache and a resolved queue. */
    method NotifyConnect()
      modifies this
      ensures Valid() && cache == map[] && queue == Resolved && log == old(log)
    {
      cache := map[];
      queue := Resolved;
    }

    /** Writes `data` to `charName` of `serviceName`, through the cache for the fitness machine. */
    method Write(server: GattServer, serviceName: string, charName: string, data: seq<bv8>) returns (outcome: WriteOutcome)
      requires Valid()
      modifies this
      ensures Valid()
      ensures var r := RunThen(Run(old(cache), old(queue), old(log), []), server, WriteRequest(serviceName, charName, data));
              cache == r.cache && queue == r.queue && log == r.events && [outcome] == r.outcomes
    {
      WriteStepCache(cache, server, WriteRequest(serviceName, charName, data));
      if queue == Rejected {
        log := log + [PreviousFailureLogged];
        queue := Resolved;
      }
      outcome := WriteOnce(server, serviceName, charName, data);
      queue := Settle(outcome);
    }

    /** The write itself, once the queue is resolved. */
    method WriteOnce(server: GattServer, serviceName: string, charName: string, data: seq<bv8>) returns (outcome: WriteOutcome)
      modifies this`cache, this`log
      ensures var s := WriteStep(old(cache), server, WriteRequest(serviceName, charName, data));
              cache == s.cache && log == old(log) + s.events && outcome == s.outcome
    {
      if serviceName == FitnessMachine && charName in cache {
        var ch := cache[charName];
        log := log + [WriteValue(ch, data)];
        outcome := if ch.acceptsWrites then Written else WriteRejected;
        return;
      }
      log := log + [ServiceLookup(serviceName)];
      if serviceName !in server.characteristics {
        return ServiceNotFound;
      }
      log := log + [Delay(WriteDelayMs), CharLookup(serviceName, charName)];
      if charName !in server.characteristics[serviceName] {
        return CharacteristicNotFound;
      }
      var h := server.characteristics[serviceName][charName];
      var ch := Characteristic(serviceName, charName, h.handle, h.acceptsWrites);
      if serviceName == FitnessMachine {
        cache := cache[charName := ch];
      }
      log := log + [Delay(WriteDelayMs), WriteValue(ch, data)];
      outcome := if ch.acceptsWrites then Written else WriteRejected;
    }
  }
}
