/**
 The gateway agent's cache of the device information it last reported, against what the
 remote API holds. Outcomes of the remote calls and of the connection are inputs.
 */
module DeviceCache {
  import opened Collections

  datatype DeviceStatus = Available | Unavailable | QueuePaused

  datatype DeviceInfo = DeviceInfo(
    deviceName: string, providerName: string, deviceType: string, status: DeviceStatus,
    maxQubits: int, maxShots: int, specJson: string, calibratedAt: string)

  /** What the remote API stores about the device. */
  datatype Remote = Remote(available: bool, specJson: string, calibratedAt: string, qubits: int)

  /** One device poll: the new information and which of the three updates would succeed. */
  datatype Round = Round(info: DeviceInfo, statusOk: bool, infoOk: bool, deviceOk: bool)

  datatype Cache = Cache(last: Option<DeviceInfo>, remote: Remote)

  /** An update the agent attempts. */
  datatype Update =
    | StatusUpdate(available: bool)
    | InfoUpdate(specJson: string, calibratedAt: string)
    | DeviceUpdate(qubits: int)

  /** Anything but available is reported as unavailable. */
  predicate ApiStatus(st: DeviceStatus) {
    match st
    case Available => true
    case Unavailable => false
    case QueuePaused => false
  }

  predicate StatusChanged(last: Option<DeviceInfo>, d: DeviceInfo) {
    last.None? || last.value.status != d.status
  }

  predicate InfoChanged(last: Option<DeviceInfo>, d: DeviceInfo) {
    last.None? || last.value.calibratedAt != d.calibratedAt || last.value.specJson != d.specJson
    || last.value.maxShots != d.maxShots || last.value.providerName != d.providerName
    || last.value.deviceName != d.deviceName || last.value.deviceType != d.deviceType
  }

  predicate DeviceChanged(last: Option<DeviceInfo>, d: DeviceInfo) {
    last.None? || last.value.maxQubits != d.maxQubits
  }

  /** Which updates a round attempts and succeeds with. */
  predicate StatusSent(c: Cache, r: Round) { StatusChanged(c.last, r.info) && r.statusOk }
  predicate InfoSent(c: Cache, r: Round) { InfoChanged(c.last, r.info) && r.infoOk }
  predicate DeviceSent(c: Cache, r: Round) { DeviceChanged(c.last, r.info) && r.deviceOk }

  /** The cache and the remote after a round. */
  function AfterRound(c: Cache, r: Round): Cache {
    var d := r.info;
    var a := if StatusSent(c, r) then c.remote.(available := ApiStatus(d.status)) else c.remote;
    var b := if InfoSent(c, r) then a.(specJson := d.specJson, calibratedAt := d.calibratedAt) else a;
    var remote := if DeviceSent(c, r) then b.(qubits := d.maxQubits) else b;
    Cache(if StatusSent(c, r) || InfoSent(c, r) || DeviceSent(c, r) then Some(d) else c.last, remote)
  }

  function Due(due: bool, update: Update): seq<Update> {
    if due then [update] else []
  }

  /** Something besides the status and the number of qubits is new. */
  predicate InfoDiffers(last: Option<DeviceInfo>, d: DeviceInfo) {
    last.None? || last.value != d.(status := last.value.status, maxQubits := last.value.maxQubits)
  }

  /** The six compared fields are all that is left besides these two. */
  lemma InfoChangedIffDiffers(last: Option<DeviceInfo>, d: DeviceInfo)
    ensures InfoChanged(last, d) <==> InfoDiffers(last, d)
  {
  }

  class GatewayAgent {
    var lastDeviceInfo: Option<DeviceInfo>
    var remote: Remote
    var attempts: seq<Update>

    ghost function View(): Cache
      reads this
    {
      Cache(lastDeviceInfo, remote)
    }

    /**
     One round. A new status causes one status update, a new number of qubits one device
     update, any other difference one info update; without a difference nothing is attempted
     and nothing is touched. What succeeds is shown by the remote from then on.
     */
    method CallDeviceApiOnChange(r: Round)
      modifies this
      ensures View() == AfterRound(old(View()), r)
      ensures var last, d := old(lastDeviceInfo), r.info;
              && attempts == old(attempts)
                          + Due(last.None? || last.value.status != d.status, StatusUpdate(d.status == Available))
                          + Due(InfoDiffers(last, d), InfoUpdate(d.specJson, d.calibratedAt))
                          + Due(last.None? || last.value.maxQubits != d.maxQubits, DeviceUpdate(d.maxQubits))
              && ((last.None? || last.value.status != d.status) && r.statusOk ==>
                    (remote.available <==> d.status == Available))
      ensures old(lastDeviceInfo) == Some(r.info) ==> attempts == old(attempts) && View() == old(View())
    {
      InfoChangedIffDiffers(lastDeviceInfo, r.info);
      var last, d := lastDeviceInfo, r.info;
      var updated := false;
      if StatusChanged(lastDeviceInfo, r.info) {
        attempts := attempts + [StatusUpdate(ApiStatus(r.info.status))];
        if r.statusOk {
          remote := remote.(available := ApiStatus(r.info.status));
          updated := true;
        }
      }
      assert attempts == old(attempts) + Due(StatusChanged(last, d), StatusUpdate(d.status == Available));
      if InfoChanged(lastDeviceInfo, r.info) {
        attempts := attempts + [InfoUpdate(r.info.specJson, r.info.calibratedAt)];
        if r.infoOk {
          remote := remote.(specJson := r.info.specJson, calibratedAt := r.info.calibratedAt);
          updated := true;
        }
      }
      assert attempts == old(attempts) + Due(StatusChanged(last, d), StatusUpdate(d.status == Available))
                         + Due(InfoChanged(last, d), InfoUpdate(d.specJson, d.calibratedAt));
      if DeviceChanged(lastDeviceInfo, r.info) {
        attempts := attempts + [DeviceUpdate(r.info.maxQubits)];
        if r.deviceOk {
          remote := remote.(qubits := r.info.maxQubits);
          updated := true;
        }
      }
      if updated {
        lastDeviceInfo := Some(r.info);
      }
    }

    /** A reset forgets the cache, unless the new connection fails. */
    method Reset(connected: bool)
      modifies this`lastDeviceInfo
      ensures View() == AfterReset(old(View()), connected)
      ensures lastDeviceInfo == if connected then None else old(lastDeviceInfo)
    {
      if connected {
        lastDeviceInfo := None;
      }
    }
  }

  function AfterReset(c: Cache, connected: bool): Cache {
    if connected then c.(last := None) else c
  }

  /** The remote holds the projection of `d`. */
  predicate Shows(remote: Remote, d: DeviceInfo) {
    && (remote.available <==> d.status == Available)
    && remote.specJson == d.specJson && remote.calibratedAt == d.calibratedAt && remote.qubits == d.maxQubits
  }

  predicate Coherent(c: Cache) {
    c.last.Some? ==> Shows(c.remote, c.last.value)
  }

  /** The round's attempted updates neither all succeed nor all fail. */
  predicate Mixed(c: Cache, r: Round) {
    && (StatusSent(c, r) || InfoSent(c, r) || DeviceSent(c, r))
    && ( || (StatusChanged(c.last, r.info) && !r.statusOk)
         || (InfoChanged(c.last, r.info) && !r.infoOk)
         || (DeviceChanged(c.last, r.info) && !r.deviceOk))
  }

  datatype Event = Poll(round: Round) | ResetEvent(connected: bool)

  function Replay(c: Cache, events: seq<Event>): Cache {
    if events == [] then c
    else
      var before := Replay(c, events[..|events| - 1]);
      match events[|events| - 1]
      case Poll(r) => AfterRound(before, r)
      case ResetEvent(ok) => AfterReset(before, ok)
  }

  ghost predicate AllOrNothing(c: Cache, events: seq<Event>) {
    forall i :: 0 <= i < |events| && events[i].Poll? ==> !Mixed(Replay(c, events[..i]), events[i].round)
  }

  /** Over any polls and resets whose rounds succeed or fail as a whole, the cache is coherent. */
  lemma {:induction false} CacheStaysCoherent(c: Cache, events: seq<Event>)
    requires Coherent(c) && AllOrNothing(c, events)
    ensures Coherent(Replay(c, events))
  {
    if events != [] {
      var front := events[..|events| - 1];
      assert forall i :: 0 <= i <= |front| ==> front[..i] == events[..i];
      CacheStaysCoherent(c, front);
    }
  }

  /** Some update succeeds while another fails that carried something the remote does not have yet. */
  predicate Loses(c: Cache, r: Round) {
    && (StatusSent(c, r) || InfoSent(c, r) || DeviceSent(c, r))
    && ( || (!r.statusOk && c.remote.available != (r.info.status == Available))
         || (!r.infoOk && (c.remote.specJson != r.info.specJson || c.remote.calibratedAt != r.info.calibratedAt))
         || (!r.deviceOk && c.remote.qubits != r.info.maxQubits))
  }

  ghost predicate CoherentThroughout(c: Cache, events: seq<Event>) {
    forall i :: 0 <= i <= |events| ==> Coherent(Replay(c, events[..i]))
  }

  ghost predicate NothingLost(c: Cache, events: seq<Event>) {
    forall i :: 0 <= i < |events| && events[i].Poll? ==> !Loses(Replay(c, events[..i]), events[i].round)
  }

  lemma RoundCoherentIff(c: Cache, r: Round)
    requires Coherent(c)
    ensures Coherent(AfterRound(c, r)) <==> !Loses(c, r)
  {
  }

  /** The exact condition over whole runs: the cache is coherent throughout iff no round loses an update. */
  lemma {:induction false} CoherentIffNothingLost(c: Cache, events: seq<Event>)
    requires Coherent(c)
    ensures CoherentThroughout(c, events) <==> NothingLost(c, events)
  {
    if events == [] {
      assert events[..0] == events;
    } else {
      var n := |events| - 1;
      var front := events[..n];
      assert forall i :: 0 <= i <= n ==> front[..i] == events[..i];
      CoherentIffNothingLost(c, front);
      assert events[..n + 1] == events;
      assert CoherentThroughout(c, events) <==> CoherentThroughout(c, front) && Coherent(Replay(c, events));
      assert NothingLost(c, events) <==>
             NothingLost(c, front) && (events[n].Poll? ==> !Loses(Replay(c, front), events[n].round));
      if CoherentThroughout(c, front) && events[n].Poll? {
        assert Coherent(Replay(c, front[..n]));
        RoundCoherentIff(Replay(c, front), events[n].round);
      }
    }
  }

  /** `n` polls that all report `d`, with any outcomes. */
  predicate SamePolls(events: seq<Event>, d: DeviceInfo) {
    forall i :: 0 <= i < |events| ==> events[i].Poll? && events[i].round.info == d
  }

  /**
   A lost update is never repaired by polling: once the cache holds `d`, however many polls
   report `d` again, nothing is sent and an incoherent cache stays incoherent.
   */
  lemma {:induction false} StaleUntilReset(c: Cache, events: seq<Event>, d: DeviceInfo)
    requires c.last == Some(d) && SamePolls(events, d)
    ensures Replay(c, events) == c
  {
    if events != [] {
      StaleUntilReset(c, events[..|events| - 1], d);
    }
  }

  /** And a lost update does happen: an unparsable calibration time fails the info update alone. */
  lemma MixedRoundGoesStale(c: Cache, d: DeviceInfo, events: seq<Event>)
    requires c.last.None? && c.remote.specJson != d.specJson && SamePolls(events, d)
    ensures var c' := AfterRound(c, Round(d, true, false, true));
            c'.last == Some(d) && !Coherent(Replay(c', events))
  {
    StaleUntilReset(AfterRound(c, Round(d, true, false, true)), events, d);
  }
}
