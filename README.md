# Music band collection: a Dafny model

This project models the core of a Java console application that keeps a collection of
music bands in memory. The model covers:

- **The entities.** `Coordinates`, `Album` and `MusicBand`, with the genre enumeration
  folded into the band. Each has a validating constructor that rejects bad input before
  any field is set.
- **The band ID counter.** In the source this is a static `AtomicInteger` inside
  `MusicBand`. Here it is an explicit `IdCounter` object that is passed to whoever builds
  bands. It starts at 1. A construction takes the counter's value only after every check
  has passed.
- **`CollectionManager`.** A `PriorityQueue<MusicBand>` ordered by `compareTo`, which
  compares IDs. It has in-place mutators (`add`, `update`, `removeById`, `clear`,
  `removeHead`, `removeFirst`, `addIfMin`) and stream queries (`getById`,
  `maxByAlbumsCount`, `countLessThanBestAlbum`, the sorted participant counts).
- **`MusicBandManager`.** This is the store the command loop actually uses. It keeps
  every band twice: in the priority queue `bands` and in the `HashMap` index `bandsById`.

Module layout, one module per source file:

| file | module | source |
|---|---|---|
| wrappers.dfy | `Wrappers` | `Option` / `Result`, standing in for `null`, `Optional` and constructor exceptions |
| java_types.dfy | `JavaTypes` | the Java `int` range and the clock reading |
| coordinates.dfy | `CoordinatesModel` | models/Coordinates.java |
| album.dfy | `AlbumModel` | models/Album.java |
| music_band.dfy | `MusicBandModel` | models/MusicBand.java, models/MusicGenre.java |
| band_queue.dfy | `BandQueue` | the `PriorityQueue` operations both managers use |
| collection_manager.dfy | `CollectionManagerModel` | managers/CollectionManager.java |
| music_band_manager.dfy | `MusicBandManagerModel` | managers/MusicBandManager.java |

How the model is built:

- **A queue is a sequence in iteration order.** Every mutator's contract speaks only of
  the queue's multiset, because the heap layout of a `PriorityQueue` is not promised. The
  head is a band with the smallest ID (`BandQueue.Peek`). The stream queries follow
  iteration order where the source does. For example, `Stream.max` keeps the first of
  several equal maxima.
- **`Synced` is the two-structure invariant.** `MusicBandManager.Synced()` says that the
  index and the queue hold the same bands: each queued band appears once and is filed
  under its own ID. The lemmas show this about the source as written:
  - `removeById`, `clear` and a load without duplicate IDs keep `Synced`.
  - An add keeps it when the new ID is fresh.
  - `removeFirst` and `removeHead` break it, because they poll the queue and leave the
    index alone.
  - The rejection branch of `addIfMin` breaks it, because it takes the new band out of
    the queue but not out of the index.
  - After such a poll, `removeById` of the polled ID still reports success but changes
    nothing in the queue.
- **The two `addIfMin` methods compare different things.**
  `CollectionManager.addIfMin` compares IDs through `compareTo`.
  `MusicBandManager.addIfMin` compares albums counts against a minimum that defaults to
  `Integer.MAX_VALUE`. So a band whose albums count is `Integer.MAX_VALUE` is not kept
  even by an empty collection.
- **Absent `Integer` values that the source unboxes are preconditions.** In the source,
  unboxing an absent value throws `NullPointerException`. The preconditions are exact:
  `Stream.max` and `sorted()` compare nothing when there is only one element, so a single
  band with an absent value is allowed.

## Model

| member | source | states |
|---|---|---|
| CoordinatesModel.NewCoordinates | java/models/Coordinates.java:30-37 | construction succeeds iff x ≤ 406; then the getters return the supplied x and y and the point is valid; otherwise the error is the x check |
| CoordinatesModel.NewCoordinatesOnto | java/models/Coordinates.java:30-33 | every valid point is rebuilt unchanged from its getters; y never takes part in a check |
| CoordinatesModel.BoundIsInclusive | java/models/Coordinates.java:26-31 | x = 406 is accepted with any y; every x above 406 is rejected |
| AlbumModel.NewAlbum | java/models/Album.java:35-47 | succeeds iff the name is present and non-empty, sales > 0 and tracks > 0; the first failing check (name, then sales, then tracks) decides the error; on success the getters return the supplied values |
| AlbumModel.NewAlbumOnto | java/models/Album.java:35-42 | every valid album is rebuilt unchanged from its getters |
| MusicBandModel.Check | java/models/MusicBand.java:80-88 | no check fails iff the name is present and non-empty, coordinates, description, genre and best album are present, and participants and albums count are positive when present |
| MusicBandModel.Construct | java/models/MusicBand.java:78-99 | a rejected input yields the first failing check and leaves the counter alone; an accepted one yields a well-formed band with the counter's value as ID, every getter equal to the supplied value and `creationDate` equal to the clock reading, and advances the counter by one |
| MusicBandModel.IdCounter.constructor | java/models/MusicBand.java:18 | the counter starts at 1 |
| MusicBandModel.IdCounter.NewMusicBand | java/models/MusicBand.java:78-99 | the constructor as a step of the counter object: result and new counter as in `Construct` |
| MusicBandModel.ConstructAllIds | java/models/MusicBand.java:80-90 | over any run of construction attempts, the accepted ones receive the consecutive IDs next, next+1, …, one per accepted attempt and none per rejected one |
| MusicBandModel.IdsStrictlyIncreasing | java/models/MusicBand.java:90 | IDs are strictly increasing in creation order and all lie between the starting and final counter, so none is reused |
| MusicBandModel.CompareTo | java/models/MusicBand.java:118-120 | negative, zero or positive exactly as this ID is less than, equal to or greater than the other's |
| MusicBandModel.CompareToOnlyById | java/models/MusicBand.java:118-120 | `compareTo` depends on the IDs alone and is antisymmetric |
| BandQueue.MinById | java/managers/CollectionManager.java:97 | the band `poll` takes from a non-empty queue is a member whose ID is at most every member's |
| BandQueue.Peek | java/managers/CollectionManager.java:116 | `peek` is empty iff the queue is; otherwise it gives a member with the smallest ID |
| BandQueue.RemoveOne | java/managers/CollectionManager.java:61 | `remove(o)` takes one occurrence of `o` out of the multiset (size drops by one) and leaves the queue unchanged when `o` is absent |
| CollectionManagerModel.GetById | java/managers/CollectionManager.java:173-175 | empty iff no band has the ID; otherwise the first band in iteration order with that ID |
| CollectionManagerModel.MaxFrom | java/managers/CollectionManager.java:129-130 | the left-to-right `maxBy` reduction ends at a first maximum of the whole queue |
| CollectionManagerModel.MaxByAlbumsCount | java/managers/CollectionManager.java:128-131 | none iff the collection is empty; otherwise a member whose albums count (absent read as 0) is at least every member's, the first such in iteration order |
| CollectionManagerModel.CountBelow | java/managers/MusicBandManager.java:349-352 | the count equals the number of positions whose best album's field is below the threshold, and is at most the size |
| CollectionManagerModel.CountLessThanBestAlbum | java/managers/CollectionManager.java:140-144 | equals the number of bands whose best album has fewer tracks than the given album; 0 on an empty collection; never above the size |
| CollectionManagerModel.Participants | java/managers/CollectionManager.java:151 | one participant count per band, position by position |
| CollectionManagerModel.Insert | java/managers/MusicBandManager.java:363 | inserting into a sorted list gives a sorted list holding one more element |
| CollectionManagerModel.Sort | java/managers/MusicBandManager.java:363 | `sorted()` returns a sorted permutation of its input |
| CollectionManagerModel.PermutationKeepsPresence | java/managers/MusicBandManager.java:361-363 | a permutation of present counts holds only present counts |
| CollectionManagerModel.ParticipantsAscending | java/managers/MusicBandManager.java:361-364 | the output is a permutation of the bands' participant counts, in ascending order |
| CollectionManagerModel.AddIfMinAccepts | java/managers/CollectionManager.java:116 | `addIfMin`'s test holds iff the new ID is strictly below every ID in the queue (vacuously when the queue is empty) |
| CollectionManagerModel.FreshBandNeverAcceptedAsMin | java/managers/CollectionManager.java:115-121 | a band the counter has just built is never accepted by a non-empty queue whose IDs all came from that counter earlier |
| CollectionManagerModel.CollectionManager.constructor | java/managers/CollectionManager.java:26-30 | the queue holds the loaded bands; the initialization time is the clock reading |
| CollectionManagerModel.CollectionManager.Add | java/managers/CollectionManager.java:47-49 | the multiset of bands grows by exactly the added band |
| CollectionManagerModel.CollectionManager.Update | java/managers/CollectionManager.java:58-66 | false, and nothing changes, iff no band has the ID; otherwise the band `getById` finds is replaced by the new band and the size stays the same |
| CollectionManagerModel.CollectionManager.RemoveById | java/managers/CollectionManager.java:74-82 | true iff some band has the ID; then exactly that band goes and the size drops by one; on false nothing changes |
| CollectionManagerModel.CollectionManager.Clear | java/managers/CollectionManager.java:87-89 | the queue is empty afterwards |
| CollectionManagerModel.CollectionManager.RemoveHead | java/managers/CollectionManager.java:96-98 | none on an empty queue and nothing changes; otherwise the minimum-ID band, which is removed, so the size drops by one |
| CollectionManagerModel.CollectionManager.RemoveFirst | java/managers/CollectionManager.java:105-107 | true iff the queue was non-empty; then only the minimum-ID band is removed; otherwise nothing changes |
| CollectionManagerModel.CollectionManager.AddIfMin | java/managers/CollectionManager.java:115-121 | inserts iff the queue is empty or the new ID is below every ID in it, and returns whether it did; on false nothing changes |
| MusicBandManagerModel.IndexStep | java/managers/MusicBandManager.java:208-209 | one `put` extends the index over one more band, keeping the last band per ID |
| MusicBandManagerModel.IndexById | java/managers/MusicBandManager.java:207-210 | the rebuilt index has exactly one key per ID in the queue and holds, under each, the last band with that ID |
| MusicBandManagerModel.DistinctIdsOnce | java/managers/MusicBandManager.java:206 | a queue without duplicate IDs holds every band once |
| MusicBandManagerModel.LoadedIndexConsistent | java/managers/MusicBandManager.java:206-210 | after a load without duplicate IDs, the index maps each loaded ID to its band and holds nothing else |
| MusicBandManagerModel.AddFreshKeepsConsistent | java/managers/MusicBandManager.java:67-68 | adding a band under an ID the index lacks keeps index and queue consistent |
| MusicBandManagerModel.AddCollidingBreaksConsistent | java/managers/MusicBandManager.java:67-68 | adding a band whose ID the index holds for another band breaks consistency: the older band stays queued, unindexed |
| MusicBandManagerModel.RemoveIndexedKeepsConsistent | java/managers/MusicBandManager.java:244-246 | `removeById` of an indexed ID keeps index and queue consistent |
| MusicBandManagerModel.PollBreaksConsistent | java/managers/MusicBandManager.java:286-304 | polling the queue without touching the index breaks consistency |
| MusicBandManagerModel.StaleEntryAfterPoll | java/managers/MusicBandManager.java:243-246 | after such a poll, the polled ID is still indexed and removing its band leaves the queue as it is |
| MusicBandManagerModel.DiscardBreaksConsistent | java/managers/MusicBandManager.java:317-318 | `addIfMin`'s rejection branch leaves the band indexed but not queued, which breaks consistency |
| MusicBandManagerModel.MinAlbums | java/managers/MusicBandManager.java:310-313 | `Integer.MAX_VALUE` on an empty queue; otherwise a member's albums count that is at most every member's |
| MusicBandManagerModel.MaxIntAlbumsNeverBelowMin | java/managers/MusicBandManager.java:313-315 | a band with albums count `Integer.MAX_VALUE` never passes `addIfMin`'s test, even on an empty queue |
| MusicBandManagerModel.MusicBandManager.constructor | java/managers/MusicBandManager.java:44-50 | empty structures, then a load: on success the queue holds the loaded bands and the index is rebuilt; a load without duplicate IDs, or none at all, leaves the store consistent |
| MusicBandManagerModel.MusicBandManager.LoadFromFile | java/managers/MusicBandManager.java:197-216 | a failed or empty load changes nothing; a successful one replaces the queue by the loaded bands and rebuilds the index from it, consistent when IDs are distinct |
| MusicBandManagerModel.MusicBandManager.AddBand | java/managers/MusicBandManager.java:66-68 | a rejected construction changes nothing; otherwise the band joins the queue and is indexed under its ID, which keeps consistency when the ID is fresh |
| MusicBandManagerModel.MusicBandManager.RemoveById | java/managers/MusicBandManager.java:243-252 | true iff the index has the ID; then that entry and that band go; otherwise nothing changes; consistency is kept |
| MusicBandManagerModel.MusicBandManager.Clear | java/managers/MusicBandManager.java:268-272 | both structures are empty, hence consistent |
| MusicBandManagerModel.MusicBandManager.RemoveFirst | java/managers/MusicBandManager.java:286-293 | on a non-empty queue the minimum-ID band leaves the queue, the index is unchanged and a consistent store becomes inconsistent; on an empty queue nothing changes |
| MusicBandManagerModel.MusicBandManager.RemoveHead | java/managers/MusicBandManager.java:298-304 | as `RemoveFirst`, returning the polled band |
| MusicBandManagerModel.MusicBandManager.DropFromQueue | java/managers/MusicBandManager.java:318 | the band just added leaves the queue, which returns to its multiset before the add; the index keeps the band's entry, so a consistent store with a fresh ID becomes inconsistent |
| MusicBandManagerModel.MusicBandManager.AddIfMin | java/managers/MusicBandManager.java:309-322 | a rejected construction changes nothing; otherwise the band is indexed, and it stays queued iff its albums count is strictly below the minimum of the bands present (`Integer.MAX_VALUE` when none); when it does not, the queue is as before; a kept band with a fresh ID keeps a consistent store consistent, and a discarded band with a fresh ID makes it inconsistent |
| MusicBandManagerModel.MusicBandManager.MaxByAlbumsCount | java/managers/MusicBandManager.java:327-330 | none iff the queue is empty; otherwise a member whose albums count is at least every member's, the first such in iteration order |
| MusicBandManagerModel.MusicBandManager.CountLessThanBestAlbum | java/managers/MusicBandManager.java:335-355 | choice 1 counts bands whose best album has fewer tracks than the value, choice 2 those whose sales are below it, any other choice gives no count; a count never exceeds the size |

## Left out

- **XML persistence.** This covers `XMLManager`, `CollectionWrapper`,
  `MusicBandCollectionWrapper`, `ZonedDateTimeAdapter`, both `saveToFile` methods and
  `CollectionManager.save`. It is JAXB marshalling and file I/O. A load is modelled by its
  result, passed in as a list of bands. `None` stands for a file that is missing, empty
  or unreadable. The `saveToFile` call in `addIfMin`'s rejection branch is not modelled.
- **java/Main.java.** This is the command loop, `execute_script`, help text and the
  parsing of the `remove_by_id` argument. It is console and file I/O.
- **The `Scanner` prompt helpers of `MusicBandManager`.** This covers `getInputString`,
  `getInputIntForNullableField`, `getInputInt`, `getInputFloat`, `getMusicGenre`,
  `getAlbumDetails` and `getCoordinates`. These are retry loops over standard input.
  `addBand` takes their results as a `BandInput`. The two `nextInt` reads in
  `countLessThanBestAlbum` become its parameters, and their input-mismatch exceptions are
  not modelled.
- **All printed text.** This covers `info`, `show`, `showAll`, `getInfo`, `toString` and
  every message. A printed result becomes the method's return value. For example,
  `removeFirst` returns whether it removed a band.
- **`creationDate` and the initialization date.** These are wall-clock readings passed in
  as opaque `Timestamp` values.
- **`float` fields.** `x`, `y` and `sales` are reals. IEEE rounding, NaN (which passes the
  `x > 406` check) and the rounding in the int-to-float conversion when sales are compared
  with the user's value are not modelled.
- MusicBandManagerModel.MusicBandManager.CountLessThanBestAlbum: choice 1 is stated as an
  exact comparison of `int` values. In the source the conditional expression mixes the
  `int` track count with the `float` sales, so both the track count and the user's value
  are widened to `float` before `<`. From 2^24 upward that widening rounds, and two
  different values can compare equal (tracks 16777216 against 16777217 counts 0 in the
  source and 1 in the model).
- **The JAXB no-argument constructor of `MusicBand`.** Only the unmarshaller calls it. It
  also takes an ID from the counter for every loaded band, and the loaded ID then
  overwrites that ID. So the counter is never reconciled with the IDs in the file, and a
  new band can receive an ID that a loaded band already has.
  `AddCollidingBreaksConsistent` shows what that does to the index.
- **Unvalidated loaded bands.** The unmarshaller sets fields without validation, so a
  loaded band can have null required fields. The model's `MusicBand` cannot represent
  that. This is why the `getBestAlbum() != null` guard in `countLessThanBestAlbum` is
  always true in the model.
- MusicBandModel.IdCounter.NewMusicBand: the counter is unbounded. The source's
  `AtomicInteger` wraps to −2^31 after 2^31−1 constructions, which would break the
  increasing-ID property. Its thread safety is irrelevant here because there is no
  concurrency.
- **Object identity.** `MusicBand` does not override `equals`, so `PriorityQueue.remove`
  matches by reference. The model compares bands structurally. Two distinct objects with
  identical fields, including ID and creation date, are indistinguishable in the model.
- **Heap layout.** Mutator contracts state the queue's multiset, not its iteration order.
  Among several bands sharing the minimum ID, which one `poll` returns is left open.
- **Null unboxing.** The source throws `NullPointerException` in these cases, and the
  model turns each into a precondition instead:
  - `MusicBandManager.addIfMin` with any absent albums count.
  - `MusicBandManager.maxByAlbumsCount` with two or more bands and an absent albums count.
  - The participant sort with two or more bands and an absent participant count.
- **The singleton.** `MusicBandManager.initializeManager` and the static `manager` field
  are not modelled. The store is an ordinary object, and `addBand` is an instance method
  of it.
