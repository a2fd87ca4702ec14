# Drone no-fly-zone monitor: violation ledger

A Dafny model of the core of a small Node.js service (`index.js`). The service
polls a feed of drone positions and flags drones inside a circular no-drone zone
around a nest at (250000, 250000) with radius 100000. It resolves each offending
drone to its pilot and keeps a ledger of offending pilots (`badBehavingPilots`).
A report endpoint serves the ledger entries seen in the last ten minutes, newest
first.

The model has five modules:

- `Wrappers` (`wrappers.dfy`): the `Option` that `Array.prototype.find` yields.
- `Feed` (`feed.dfy`): the parsed feed document and `extractDroneInfo`.
- `Geofence` (`geofence.dfy`): the distance, the strict disc test `isInCircle` /
  `isInNoDroneZone`, and the feed filter `droneInfo.filter(isInNoDroneZone)`.
  There is no square root. A distance `d` between two points is any real with
  `d >= 0` and `d * d` equal to the squared Euclidean distance. The disc test is
  `0 < radius && squared distance < radius * radius`. `IsInCircleIffCloser`
  proves this agrees with `distance < radius` for every radius.
- `Ledger` (`ledger.dfy`): the entry types and the ledger operations.
  - `findPilotByDrone` is `FindPilotByDrone`; `min` is `Min`.
  - The `map` inside `updatePilotInfo` is `UpdatedPilots`, and the entry it
    builds is `MergeObservation`.
  - The entry `addNewPilot` pushes is `NewPilotEntry`.
  - The synchronous part of `runPilotUpdate` is `PilotUpdate`.
  - The mutable ledger is the class `PilotLedger`. Its `seq` field is reassigned
    by `UpdatePilotInfo`, extended by `AddNewPilot`, and dispatched on by
    `RunPilotUpdate`.
  - The observation's distance to the nest is a parameter `currentDistance`. The
    class methods require it to be that distance (`IsDistanceToNest`).
- `Report` (`report.dfy`): `inLastTenMin`, the filter, and the sort with
  comparator `b.timestamp - a.timestamp`. `Array.prototype.sort` is stable, so
  the sort is modelled as a stable insertion sort on timestamps.

The model follows the code where it departs from the ledger's intended design:

- The ledger is meant to hold one entry per `pilotId`, whose drone list only
  grows. The code never checks this. The cache is searched by drone serial
  only, and `addNewPilot` pushes unconditionally. So when a pilot's second drone
  is flagged after the first drone's entry exists, the second drone misses the
  cache and gets its own entry for the same pilot (`AddNewPilotCanDuplicate`).
  No concurrency is needed for this.
- The entry found by serial always already holds that serial. So the append
  branch of `updatePilotInfo` never fires on the `runPilotUpdate` path. Starting
  from the empty ledger, every entry keeps exactly one drone
  (`CacheHitKeepsOneDroneEach`). The drone list never grows beyond its first
  serial; each further drone of a pilot gets its own entry instead.
- `updatePilotInfo` replaces every entry with the found pilot's id by the merge
  of the FOUND entry. With duplicate entries, the other duplicate loses its
  drones and its minimum can rise (`DuplicateEntryIsOverwritten`). The
  "only grows / never increases" guarantees therefore hold per entry only while
  pilot ids are unique (`UpdateWithUniqueIds`).

## Model

| member | source | states |
|---|---|---|
| `Feed.ExtractAll` | index.js:15-20 | mapping the drone list gives one record per drone, in order, with that drone's serial and position and the given capture timestamp |
| `Feed.ExtractDroneInfo` | index.js:14-23 | no drone list on the `report.capture.drone` path gives no records; otherwise one record per drone in feed order, each with its serial, its position and the single capture timestamp |
| `Geofence.IsInCircleIffCloser` | index.js:25-36 | for any origin, any radius and the true Euclidean distance `d`, the disc test holds exactly when `d < radius` |
| `Geofence.NoDroneZoneIsStrict` | index.js:29-37 | a drone exactly 100000 from the nest is not in the zone; any drone strictly closer is |
| `Geofence.BoundaryExamples` | index.js:31-37 | (250000, 150000) is at distance 100000 and outside; (250000, 160000) is at distance 90000 and inside |
| `Geofence.Violators` | index.js:111 | the violators are exactly the feed records inside the zone, each with its full multiplicity |
| `Geofence.ViolatorsAppend` | index.js:111 | the filter keeps feed order: filtering a concatenation is the concatenation of the filtered parts |
| `Ledger.FindPilotByDrone` | index.js:41-43 | nothing is found exactly when no entry's drones contain the serial; otherwise the result is the first entry whose drones contain it |
| `Ledger.Min` | index.js:45 | the result is one of the two arguments and at most both |
| `Ledger.MergeObservation` | index.js:47-58 | the merged entry keeps id, email, phone and name; takes the observation's timestamp; its minimum is min(old, current), so it never increases; the old drones are a prefix, at most one serial is appended, the drone set becomes old set plus the serial, and a known serial leaves the drones unchanged |
| `Ledger.UpdatedPilots` | index.js:49-60 | length is kept, every entry keeps its pilotId, entries with another pilotId are unchanged, and entries with the found pilot's id become the merge of the found entry |
| `Ledger.PilotUpdate` | index.js:78-84 | a lookup is required exactly when no entry knows the serial; a cache hit keeps the ledger length |
| `Ledger.PilotUpdateMergesFirstHolder` | index.js:78-84 | a cache hit's ledger is the `updatePilotInfo` map applied with the first entry whose drones hold the serial |
| `Ledger.NewPilotEntry` | index.js:63-74 | the new entry has the lookup's id, email and phone, the name "firstName lastName", the observed serial as its only drone, and the observation's timestamp and distance as its minimum |
| `Ledger.MergeObservationIdempotent` | index.js:53-57 | merging the same observation into an already merged entry changes nothing (drones, minimum, timestamp) |
| `Ledger.FindAfterUpdate` | index.js:41-61 | after a cache hit, the serial resolves to the merged entry |
| `Ledger.PilotUpdateIdempotent` | index.js:78-84 | running the cache-hit path twice with the same observation leaves the ledger as after once |
| `Ledger.UpdateWithUniqueIds` | index.js:46-61 | with unique pilot ids a cache hit changes only the found entry (into its merge), keeps ids unique, and at every index the minimum does not rise and the old drones stay a prefix |
| `Ledger.DuplicateEntryIsOverwritten` | index.js:49-59 | with two entries for one pilot, a hit on the first overwrites the second with the first's merge: the second loses its drone and its minimum rises from 5 to 10 |
| `Ledger.FindAfterAppend` | index.js:41-75 | pushing an entry leaves the resolution of every already-known serial unchanged; an unknown serial resolves to the new entry exactly when it carries that serial |
| `Ledger.NewPilotResolvesDrone` | index.js:63-76 | after a cache miss, the pushed entry has the lookup's id, name "firstName lastName", drones [serial], the observation's timestamp and its distance to the nest, and the serial now resolves to it |
| `Ledger.AddNewPilotCanDuplicate` | index.js:63-97 | with the pilot's first drone already in the ledger, its second drone still misses the cache, and pushing its lookup gives two entries with the same pilotId |
| `Ledger.CacheHitKeepsOneDroneEach` | index.js:41-76 | if every entry holds exactly one drone, so does the ledger after a push of a new entry and after a cache hit; a hit leaves each drone list as it was or makes it the observed serial alone |
| `Ledger.OneDroneCycleExample` | index.js:14-93 | a feed with one drone on the boundary yields no violator; one drone at (250000, 160000) yields one violator at distance 90000 that needs a lookup, and the new entry is ("P1", "Ann Lee", drones [serial], distance 90000) |
| `Ledger.PilotLedger.constructor` | index.js:39 | the ledger starts empty |
| `Ledger.PilotLedger.UpdatePilotInfo` | index.js:46-61 | the ledger becomes its mapped copy: same length, entries of other pilots unchanged |
| `Ledger.PilotLedger.AddNewPilot` | index.js:63-76 | the ledger grows by exactly the new entry at the end; earlier entries are unchanged |
| `Ledger.PilotLedger.RunPilotUpdate` | index.js:78-97 | a lookup is reported exactly on a cache miss, which leaves the ledger unchanged; a hit merges the found entry |
| `Report.RecentPilots` | index.js:120-134 | an entry is kept exactly when `now - timestamp < 600000`, with its full multiplicity |
| `Report.InsertNewestFirst` | index.js:135 | inserting into a newest-first list gives a newest-first permutation of the list plus the entry |
| `Report.SortNewestFirst` | index.js:135 | the sorted list is a permutation of the input, with timestamps non-increasing |
| `Report.InsertKeepsTies` | index.js:135 | an inserted entry goes before every entry with its own timestamp, without reordering them |
| `Report.SortIsStable` | index.js:135 | for every timestamp, the entries with that timestamp come out in input order |
| `Report.RecentPilotsAppend` | index.js:133-134 | the window filter keeps ledger order: filtering a concatenation is the concatenation of the filtered parts |
| `Report.RecentKeepsTieOrder` | index.js:120-134 | among entries with one timestamp, the filter keeps all of them in ledger order when that timestamp is in the window, and none otherwise |
| `Report.BadPilots` | index.js:120-135 | the report holds exactly the entries seen in the last 600000 ms, as a permutation of that subset, newest first, and entries with equal timestamps in ledger order |
| `Report.WindowExamples` | index.js:120-123 | entries 601000 ms and exactly 600000 ms old are out; 599000 ms old is in |

## Left out

- Fetching the drone feed and the pilot endpoint over HTTPS, and concatenating the `Buffer` chunks. This is network I/O. The cache-miss branch of `runPilotUpdate` is modelled only as "ledger unchanged, lookup required". The lookup's answer is an input to `AddNewPilot`.
- A failed or malformed pilot lookup, and a feed fetch that fails and stops the poll loop. Both are network and parser errors outside the model.
- XML parsing, `JSON.parse` and `Date.parse`. These are library calls. Their output is given as structured records with integer epoch-millisecond timestamps.
- A feed capture with a single `<drone>`. The XML parser then yields an object, not an array, and `.map` would fail. The model treats the drone list as already a list.
- Missing fields in the lookup JSON. JavaScript would interpolate `undefined` into the name. The model takes every field as present.
- `Math.sqrt` and float arithmetic. Distances are exact reals pinned by their squares. Rounding, NaN and `min` on NaN are not modelled.
- The `setTimeout` cadence of 500 ms is scheduling. The race where two lookups for one pilot are in flight at once is concurrency and is left out too. Its effect on the ledger, a second entry for one pilot, also arises sequentially (`AddNewPilotCanDuplicate`).
- The per-cycle `forEach(runPilotUpdate)` over the violators in `reportDronesInNDZ` is outside the modelled core. Each step of it is `RunPilotUpdate`, and the violators are `Violators`.
- The HTTP server, serving `index.html`, JSON serialisation, listen and bootstrap, and the dynamic `https` import with `process.exit`. These are I/O plumbing.
- `Date` arithmetic: `now` is a parameter in epoch milliseconds.
