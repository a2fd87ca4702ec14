/**
 * The violation ledger `badBehavingPilots` (index.js:39-97): a list of pilot
 * entries, searched by drone serial, merged with new observations and grown
 * by newly resolved pilots. The list does not enforce one entry per pilotId.
 *
 * The observation's distance to the nest is passed in by the caller as
 * `currentDistance`, constrained to be that Euclidean distance.
 */
module Ledger {
  import opened Wrappers
  import opened Feed
  import opened Geofence

  /** One ledger entry, as the report serialises it. */
  datatype PilotEntry = PilotEntry(
    pilotId: string,
    email: string,
    phoneNumber: string,
    timestamp: int,
    name: string,
    drones: seq<string>,
    minDistanceToNest: real)

  /** The pilot lookup's answer, already decoded. */
  datatype PilotInfo = PilotInfo(
    pilotId: string,
    firstName: string,
    lastName: string,
    email: string,
    phoneNumber: string)

  /** `xs` is an initial segment of `ys`. */
  predicate IsPrefix<T(==)>(xs: seq<T>, ys: seq<T>) {
    |xs| <= |ys| && ys[..|xs|] == xs
  }

  /**
   * No two entries share a pilotId. The code does not keep this: the cache is
   * searched by drone serial only, so a second drone of a pilot already in the
   * ledger misses and is pushed as a second entry for that pilot.
   */
  predicate UniquePilotIds(pilots: seq<PilotEntry>) {
    forall i, j :: 0 <= i < j < |pilots| ==> pilots[i].pilotId != pilots[j].pilotId
  }

  /** Entry `k` is the first whose drones contain the serial. */
  predicate IsFirstWithDrone(pilots: seq<PilotEntry>, serialNumber: string, k: int) {
    0 <= k < |pilots| && serialNumber in pilots[k].drones &&
    forall j :: 0 <= j < k ==> serialNumber !in pilots[j].drones
  }

  /**
   * `badBehavingPilots.find(({ drones }) => drones.includes(serialNumber))`:
   * the first entry whose drones contain the serial, or nothing if none does.
   */
  function FindPilotByDrone(pilots: seq<PilotEntry>, serialNumber: string): (r: Option<PilotEntry>)
    ensures r.None? <==> forall i :: 0 <= i < |pilots| ==> serialNumber !in pilots[i].drones
    ensures r.Some? ==> exists k :: IsFirstWithDrone(pilots, serialNumber, k) && pilots[k] == r.value
  {
    if pilots == [] then None
    else if serialNumber in pilots[0].drones then
      assert IsFirstWithDrone(pilots, serialNumber, 0);
      Some(pilots[0])
    else
      var r := FindPilotByDrone(pilots[1..], serialNumber);
      assert r.Some? ==> exists k :: IsFirstWithDrone(pilots, serialNumber, k) && pilots[k] == r.value by {
        if r.Some? {
          var k :| IsFirstWithDrone(pilots[1..], serialNumber, k) && pilots[1..][k] == r.value;
          forall j | 0 <= j < k + 1 ensures serialNumber !in pilots[j].drones {
            if j > 0 { assert pilots[j] == pilots[1..][j - 1]; }
          }
          assert IsFirstWithDrone(pilots, serialNumber, k + 1);
        }
      }
      assert r.None? ==> forall i :: 0 <= i < |pilots| ==> serialNumber !in pilots[i].drones by {
        if r.None? {
          forall i | 0 <= i < |pilots| ensures serialNumber !in pilots[i].drones {
            if i > 0 { assert pilots[i] == pilots[1..][i - 1]; }
          }
        }
      }
      r
  }

  /** `min(a, b)`: the smaller of the two. */
  function Min(a: real, b: real): (r: real)
    ensures r <= a && r <= b
    ensures r == a || r == b
  {
    if a > b then b else a
  }

  /**
   * The entry that `updatePilotInfo` builds from the found entry `pilot`: the
   * identity is kept, the timestamp becomes the observation's, the serial is
   * added to the drones if absent, and the minimum distance takes the current one
   * into account.
   */
  function MergeObservation(pilot: PilotEntry, droneInfo: DroneInfo, currentDistance: real): (r: PilotEntry)
    ensures r.pilotId == pilot.pilotId && r.email == pilot.email &&
      r.phoneNumber == pilot.phoneNumber && r.name == pilot.name
    ensures r.timestamp == droneInfo.timestamp
    ensures r.minDistanceToNest <= pilot.minDistanceToNest && r.minDistanceToNest <= currentDistance
    ensures r.minDistanceToNest == pilot.minDistanceToNest || r.minDistanceToNest == currentDistance
    ensures IsPrefix(pilot.drones, r.drones) && |r.drones| <= |pilot.drones| + 1
    ensures (set x | x in r.drones) == (set x | x in pilot.drones) + {droneInfo.serialNumber}
    ensures droneInfo.serialNumber in pilot.drones ==> r.drones == pilot.drones
  {
    var drones := if droneInfo.serialNumber in pilot.drones then pilot.drones
                  else pilot.drones + [droneInfo.serialNumber];
    pilot.(timestamp := droneInfo.timestamp,
           drones := drones,
           minDistanceToNest := Min(pilot.minDistanceToNest, currentDistance))
  }

  /**
   * The `badBehavingPilots.map(...)` of `updatePilotInfo`: every entry whose
   * pilotId equals the found entry's is replaced by the merge of the FOUND entry;
   * every other entry is kept.
   */
  function UpdatedPilots(pilots: seq<PilotEntry>, pilot: PilotEntry, droneInfo: DroneInfo, currentDistance: real): (r: seq<PilotEntry>)
    ensures |r| == |pilots|
    ensures forall i :: 0 <= i < |pilots| ==> r[i].pilotId == pilots[i].pilotId
    ensures forall i :: 0 <= i < |pilots| && pilots[i].pilotId != pilot.pilotId ==> r[i] == pilots[i]
    ensures forall i :: 0 <= i < |pilots| && pilots[i].pilotId == pilot.pilotId ==>
      r[i] == MergeObservation(pilot, droneInfo, currentDistance)
  {
    if pilots == [] then []
    else
      var head := if pilots[0].pilotId == pilot.pilotId then MergeObservation(pilot, droneInfo, currentDistance) else pilots[0];
      [head] + UpdatedPilots(pilots[1..], pilot, droneInfo, currentDistance)
  }

  /**
   * The entry `addNewPilot` pushes for a freshly resolved pilot: the looked-up
   * identity with the name joined by one space, the observed drone as its only
   * drone, and the observation's timestamp and distance as the first minimum.
   */
  function NewPilotEntry(pilotInfo: PilotInfo, droneInfo: DroneInfo, currentDistance: real): (r: PilotEntry)
    ensures r.pilotId == pilotInfo.pilotId && r.email == pilotInfo.email && r.phoneNumber == pilotInfo.phoneNumber
    ensures r.name == pilotInfo.firstName + " " + pilotInfo.lastName
    ensures r.drones == [droneInfo.serialNumber]
    ensures r.timestamp == droneInfo.timestamp && r.minDistanceToNest == currentDistance
  {
    PilotEntry(
      pilotInfo.pilotId,
      pilotInfo.email,
      pilotInfo.phoneNumber,
      droneInfo.timestamp,
      pilotInfo.firstName + " " + pilotInfo.lastName,
      [droneInfo.serialNumber],
      currentDistance)
  }

  /** What `runPilotUpdate` does to the ledger before any network call. */
  datatype UpdateOutcome =
    | Merged(pilots: seq<PilotEntry>)  // cache hit: the ledger after `updatePilotInfo`
    | LookupRequired                   // cache miss: ledger untouched, pilot must be fetched

  /** The synchronous part of `runPilotUpdate`. */
  function PilotUpdate(pilots: seq<PilotEntry>, droneInfo: DroneInfo, currentDistance: real): (r: UpdateOutcome)
    ensures r.LookupRequired? <==> forall i :: 0 <= i < |pilots| ==> droneInfo.serialNumber !in pilots[i].drones
    ensures r.Merged? ==> |r.pilots| == |pilots|
  {
    match FindPilotByDrone(pilots, droneInfo.serialNumber)
    case None => LookupRequired
    case Some(pilot) => Merged(UpdatedPilots(pilots, pilot, droneInfo, currentDistance))
  }

  /**
   * A cache hit is `updatePilotInfo` applied with the first entry whose drones
   * hold the observed serial.
   */
  lemma PilotUpdateMergesFirstHolder(pilots: seq<PilotEntry>, droneInfo: DroneInfo, currentDistance: real)
    requires PilotUpdate(pilots, droneInfo, currentDistance).Merged?
    ensures exists k ::
              IsFirstWithDrone(pilots, droneInfo.serialNumber, k) &&
              PilotUpdate(pilots, droneInfo, currentDistance).pilots ==
                UpdatedPilots(pilots, pilots[k], droneInfo, currentDistance)
  {}

  /** Merging the same observation into its own result changes nothing. */
  lemma MergeObservationIdempotent(pilot: PilotEntry, droneInfo: DroneInfo, currentDistance: real)
    ensures var once := MergeObservation(pilot, droneInfo, currentDistance);
      MergeObservation(once, droneInfo, currentDistance) == once
  {}

  /**
   * After a cache hit, the serial resolves to the merged entry: entries before
   * the found one either still lack the serial or are copies of the merge.
   */
  lemma {:induction false} FindAfterUpdate(pilots: seq<PilotEntry>, droneInfo: DroneInfo, currentDistance: real)
    requires FindPilotByDrone(pilots, droneInfo.serialNumber).Some?
    ensures var pilot := FindPilotByDrone(pilots, droneInfo.serialNumber).value;
      FindPilotByDrone(UpdatedPilots(pilots, pilot, droneInfo, currentDistance), droneInfo.serialNumber)
        == Some(MergeObservation(pilot, droneInfo, currentDistance))
  {
    var s := droneInfo.serialNumber;
    var pilot := FindPilotByDrone(pilots, s).value;
    var merged := MergeObservation(pilot, droneInfo, currentDistance);
    var updated := UpdatedPilots(pilots, pilot, droneInfo, currentDistance);
    var k :| IsFirstWithDrone(pilots, s, k) && pilots[k] == pilot;
    var found := FindPilotByDrone(updated, s);
    assert s in updated[k].drones;
    assert found.Some?;
    var m :| IsFirstWithDrone(updated, s, m) && updated[m] == found.value;
  }

  /** Running the cache-hit path twice with the same observation is the same as running it once. */
  lemma PilotUpdateIdempotent(pilots: seq<PilotEntry>, droneInfo: DroneInfo, currentDistance: real)
    requires PilotUpdate(pilots, droneInfo, currentDistance).Merged?
    ensures var once := PilotUpdate(pilots, droneInfo, currentDistance).pilots;
      PilotUpdate(once, droneInfo, currentDistance) == Merged(once)
  {
    var pilot := FindPilotByDrone(pilots, droneInfo.serialNumber).value;
    var once := UpdatedPilots(pilots, pilot, droneInfo, currentDistance);
    assert PilotUpdate(pilots, droneInfo, currentDistance) == Merged(once);
    var merged := MergeObservation(pilot, droneInfo, currentDistance);
    FindAfterUpdate(pilots, droneInfo, currentDistance);
    assert FindPilotByDrone(once, droneInfo.serialNumber) == Some(merged);
    MergeObservationIdempotent(pilot, droneInfo, currentDistance);
    var twice := UpdatedPilots(once, merged, droneInfo, currentDistance);
    assert PilotUpdate(once, droneInfo, currentDistance) == Merged(twice);
    assert twice == once by {
      forall i | 0 <= i < |once| ensures twice[i] == once[i] {
        if pilots[i].pilotId == pilot.pilotId {
          assert once[i] == merged;
        }
      }
    }
  }

  /**
   * With one entry per pilotId, a cache hit touches only the found entry: every
   * entry keeps its pilotId, its drones only grow, its minimum only falls, and
   * uniqueness is kept.
   */
  lemma UpdateWithUniqueIds(pilots: seq<PilotEntry>, droneInfo: DroneInfo, currentDistance: real)
    requires UniquePilotIds(pilots)
    requires PilotUpdate(pilots, droneInfo, currentDistance).Merged?
    ensures var r := PilotUpdate(pilots, droneInfo, currentDistance).pilots;
      UniquePilotIds(r) &&
      exists k :: 0 <= k < |pilots| && droneInfo.serialNumber in pilots[k].drones &&
        r[k] == MergeObservation(pilots[k], droneInfo, currentDistance) &&
        forall i :: 0 <= i < |pilots| && i != k ==> r[i] == pilots[i]
    ensures var r := PilotUpdate(pilots, droneInfo, currentDistance).pilots;
      forall i :: 0 <= i < |pilots| ==>
        r[i].minDistanceToNest <= pilots[i].minDistanceToNest && IsPrefix(pilots[i].drones, r[i].drones)
  {
    var pilot := FindPilotByDrone(pilots, droneInfo.serialNumber).value;
    var r := UpdatedPilots(pilots, pilot, droneInfo, currentDistance);
    var k :| IsFirstWithDrone(pilots, droneInfo.serialNumber, k) && pilots[k] == pilot;
    forall i | 0 <= i < |pilots| && i != k ensures r[i] == pilots[i] {
      assert pilots[i].pilotId != pilots[k].pilotId;
    }
    forall i | 0 <= i < |pilots|
      ensures r[i].minDistanceToNest <= pilots[i].minDistanceToNest && IsPrefix(pilots[i].drones, r[i].drones)
    {
      if i != k {
        assert r[i] == pilots[i];
      }
    }
  }

  /**
   * Without uniqueness the cache hit can lose drones and raise a minimum: a
   * second entry with the found pilot's id is overwritten by the found entry's merge.
   */
  lemma DuplicateEntryIsOverwritten(droneInfo: DroneInfo)
    requires droneInfo.serialNumber == "s1"
    ensures var first := PilotEntry("p1", "e", "n", 0, "A B", ["s1"], 10.0);
      var second := PilotEntry("p1", "e", "n", 0, "A B", ["s2"], 5.0);
      var r := PilotUpdate([first, second], droneInfo, 20.0);
      r.Merged? && "s2" !in r.pilots[1].drones && r.pilots[1].minDistanceToNest == 10.0
  {
    var first := PilotEntry("p1", "e", "n", 0, "A B", ["s1"], 10.0);
    var second := PilotEntry("p1", "e", "n", 0, "A B", ["s2"], 5.0);
    assert FindPilotByDrone([first, second], "s1") == Some(first);
    var r := UpdatedPilots([first, second], first, droneInfo, 20.0);
    assert r[1] == MergeObservation(first, droneInfo, 20.0);
    assert r[1].drones == ["s1"];
  }

  /**
   * Appending an entry does not change where an already-known serial resolves;
   * an unknown serial resolves to the new entry when it carries that serial.
   */
  lemma {:induction false} FindAfterAppend(pilots: seq<PilotEntry>, entry: PilotEntry, serialNumber: string)
    ensures FindPilotByDrone(pilots + [entry], serialNumber) ==
      match FindPilotByDrone(pilots, serialNumber)
      case Some(p) => Some(p)
      case None => if serialNumber in entry.drones then Some(entry) else None
  {
    if pilots == [] {
      assert pilots + [entry] == [entry];
    } else {
      assert (pilots + [entry])[1..] == pilots[1..] + [entry];
      FindAfterAppend(pilots[1..], entry, serialNumber);
    }
  }

  /**
   * After a cache miss and a successful lookup, the drone resolves to the new
   * entry, whose fields are the lookup's identity and the observation's data.
   */
  lemma NewPilotResolvesDrone(pilots: seq<PilotEntry>, pilotInfo: PilotInfo, droneInfo: DroneInfo, currentDistance: real)
    requires PilotUpdate(pilots, droneInfo, currentDistance).LookupRequired?
    ensures var e := NewPilotEntry(pilotInfo, droneInfo, currentDistance);
      FindPilotByDrone(pilots + [e], droneInfo.serialNumber) == Some(e) &&
      e.pilotId == pilotInfo.pilotId && e.name == pilotInfo.firstName + " " + pilotInfo.lastName &&
      e.drones == [droneInfo.serialNumber] && e.timestamp == droneInfo.timestamp &&
      e.minDistanceToNest == currentDistance
  {
    FindAfterAppend(pilots, NewPilotEntry(pilotInfo, droneInfo, currentDistance), droneInfo.serialNumber);
  }

  /**
   * `addNewPilot` does not check for an existing entry of the same pilot: when
   * the pilot's first drone is already in the ledger, its second drone still
   * misses the cache, and the lookup's entry is pushed as a second entry.
   */
  lemma AddNewPilotCanDuplicate(pilotInfo: PilotInfo, a: DroneInfo, b: DroneInfo)
    requires a.serialNumber != b.serialNumber
    ensures var pilots := [NewPilotEntry(pilotInfo, a, 1.0), NewPilotEntry(pilotInfo, b, 2.0)];
      !UniquePilotIds(pilots) && PilotUpdate([NewPilotEntry(pilotInfo, a, 1.0)], b, 2.0).LookupRequired?
  {
    var first := NewPilotEntry(pilotInfo, a, 1.0);
    assert b.serialNumber !in first.drones;
    var pilots := [first, NewPilotEntry(pilotInfo, b, 2.0)];
    assert pilots[0].pilotId == pilots[1].pilotId;
  }

  /** Every entry holds exactly one drone serial. */
  predicate OneDroneEach(pilots: seq<PilotEntry>) {
    forall i :: 0 <= i < |pilots| ==> |pilots[i].drones| == 1
  }

  /**
   * The entry found by serial already holds that serial, so the append branch
   * of `updatePilotInfo` never fires on the `runPilotUpdate` path: a cache hit
   * leaves every drone list as it was or makes it the found entry's. Starting
   * from the empty ledger, every entry therefore keeps exactly one drone.
   */
  lemma CacheHitKeepsOneDroneEach(pilots: seq<PilotEntry>, pilotInfo: PilotInfo, droneInfo: DroneInfo, currentDistance: real)
    requires OneDroneEach(pilots)
    ensures OneDroneEach(pilots + [NewPilotEntry(pilotInfo, droneInfo, currentDistance)])
    ensures var r := PilotUpdate(pilots, droneInfo, currentDistance);
      r.Merged? ==> OneDroneEach(r.pilots)
    ensures var r := PilotUpdate(pilots, droneInfo, currentDistance);
      r.Merged? ==> forall i :: 0 <= i < |pilots| ==>
        r.pilots[i].drones == pilots[i].drones || r.pilots[i].drones == [droneInfo.serialNumber]
  {
    var e := NewPilotEntry(pilotInfo, droneInfo, currentDistance);
    assert forall i :: 0 <= i < |pilots| ==> (pilots + [e])[i] == pilots[i];
    var r := PilotUpdate(pilots, droneInfo, currentDistance);
    if r.Merged? {
      var k :| IsFirstWithDrone(pilots, droneInfo.serialNumber, k) &&
        r.pilots == UpdatedPilots(pilots, pilots[k], droneInfo, currentDistance);
      assert pilots[k].drones == [droneInfo.serialNumber] by {
        assert |pilots[k].drones| == 1 && droneInfo.serialNumber in pilots[k].drones;
      }
      assert MergeObservation(pilots[k], droneInfo, currentDistance).drones == pilots[k].drones;
    }
  }

  /**
   * One poll cycle on an empty ledger: a feed with one drone on the zone
   * boundary leaves nothing to resolve; a feed with one drone 90000 from the
   * nest needs a lookup, and the looked-up pilot's entry records that drone
   * and that distance.
   */
  lemma OneDroneCycleExample(serial: string, t: int)
    ensures var onBoundary := ParsedXml(Some(ReportElement(Some(CaptureElement(t,
          Some([DroneElement(serial, 250000.0, 150000.0)]))))));
      Violators(ExtractDroneInfo(onBoundary)) == []
    ensures var inside := ParsedXml(Some(ReportElement(Some(CaptureElement(t,
          Some([DroneElement(serial, 250000.0, 160000.0)]))))));
      var infos := Violators(ExtractDroneInfo(inside));
      var ann := PilotInfo("P1", "Ann", "Lee", "a@x.com", "555");
      |infos| == 1 && IsDistanceToNest(infos[0].position, 90000.0) &&
      PilotUpdate([], infos[0], 90000.0).LookupRequired? &&
      [] + [NewPilotEntry(ann, infos[0], 90000.0)] ==
        [PilotEntry("P1", "a@x.com", "555", t, "Ann Lee", [serial], 90000.0)]
  {
    var onBoundary := ParsedXml(Some(ReportElement(Some(CaptureElement(t,
          Some([DroneElement(serial, 250000.0, 150000.0)]))))));
    var outside := ExtractDroneInfo(onBoundary);
    assert outside == [DroneInfo(serial, Position(250000.0, 150000.0), t)];
    BoundaryExamples(serial, t);
    assert Violators(outside) == Violators(outside[1..]);
    var inside := ParsedXml(Some(ReportElement(Some(CaptureElement(t,
          Some([DroneElement(serial, 250000.0, 160000.0)]))))));
    var all := ExtractDroneInfo(inside);
    assert all == [DroneInfo(serial, Position(250000.0, 160000.0), t)];
    assert Violators(all) == [all[0]] + Violators(all[1..]);
    assert "Ann" + " " + "Lee" == "Ann Lee";
    assert PilotUpdate([], all[0], 90000.0).LookupRequired?;
  }

  /**
   * The module-level array `badBehavingPilots` and the functions that change it.
   */
  class PilotLedger {
    var badBehavingPilots: seq<PilotEntry>

    /** The ledger starts empty. */
    constructor ()
      ensures badBehavingPilots == []
    {
      badBehavingPilots := [];
    }

    /** `updatePilotInfo(pilot, droneInfo)`: reassigns the ledger to its mapped copy. */
    method UpdatePilotInfo(pilot: PilotEntry, droneInfo: DroneInfo, currentDistance: real)
      requires IsDistanceToNest(droneInfo.position, currentDistance)
      modifies this
      ensures badBehavingPilots == UpdatedPilots(old(badBehavingPilots), pilot, droneInfo, currentDistance)
      ensures |badBehavingPilots| == |old(badBehavingPilots)|
      ensures forall i :: 0 <= i < |badBehavingPilots| && old(badBehavingPilots)[i].pilotId != pilot.pilotId ==>
        badBehavingPilots[i] == old(badBehavingPilots)[i]
    {
      badBehavingPilots := UpdatedPilots(badBehavingPilots, pilot, droneInfo, currentDistance);
    }

    /** `addNewPilot(pilotInfo, droneInfo)`: pushes one entry at the end. */
    method AddNewPilot(pilotInfo: PilotInfo, droneInfo: DroneInfo, currentDistance: real)
      requires IsDistanceToNest(droneInfo.position, currentDistance)
      modifies this
      ensures |badBehavingPilots| == |old(badBehavingPilots)| + 1
      ensures badBehavingPilots[..|old(badBehavingPilots)|] == old(badBehavingPilots)
      ensures badBehavingPilots[|old(badBehavingPilots)|] == NewPilotEntry(pilotInfo, droneInfo, currentDistance)
    {
      badBehavingPilots := badBehavingPilots + [NewPilotEntry(pilotInfo, droneInfo, currentDistance)];
    }

    /**
     * `runPilotUpdate(droneInfo)` up to the network call: on a cache hit the
     * found entry is merged; on a miss the ledger is untouched and a pilot
     * lookup is required.
     */
    method RunPilotUpdate(droneInfo: DroneInfo, currentDistance: real) returns (lookupRequired: bool)
      requires IsDistanceToNest(droneInfo.position, currentDistance)
      modifies this
      ensures lookupRequired <==> PilotUpdate(old(badBehavingPilots), droneInfo, currentDistance).LookupRequired?
      ensures lookupRequired ==> badBehavingPilots == old(badBehavingPilots)
      ensures !lookupRequired ==> badBehavingPilots == PilotUpdate(old(badBehavingPilots), droneInfo, currentDistance).pilots
    {
      var maybePilot := FindPilotByDrone(badBehavingPilots, droneInfo.serialNumber);
      if maybePilot.Some? {
        UpdatePilotInfo(maybePilot.value, droneInfo, currentDistance);
        lookupRequired := false;
      } else {
        lookupRequired := true;
      }
    }
  }
}
