/** managers/MusicBandManager.java: the store the command loop uses. It keeps the bands
    twice, in the priority queue `bands` and in the `HashMap` index `bandsById`. Some of
    its operations update only the queue, so the two can drift apart; `Consistent`
    states the agreement and the lemmas below say which operations keep it and which
    break it. */
module MusicBandManagerModel {
  import opened Wrappers
  import opened JavaTypes
  import opened MusicBandModel
  import opened BandQueue
  import opened CollectionManagerModel

  /** The index and the queue hold the same bands: every queued band once, under its own
      ID, and every index entry is a queued band filed under its ID. */
  ghost predicate Consistent(queue: multiset<MusicBand>, index: map<int, MusicBand>) {
    && (forall b :: b in queue ==> queue[b] == 1 && b.id in index && index[b.id] == b)
    && (forall id :: id in index ==> index[id].id == id && index[id] in queue)
  }

  /** No two bands of `s` share an ID. */
  predicate DistinctIds(s: seq<MusicBand>) {
    forall i, j :: 0 <= i < j < |s| ==> s[i].id != s[j].id
  }

  /** Among the first `k` bands of `s`, none after position `i` has the ID of `s[i]`. */
  ghost predicate LastWithIdUpTo(s: seq<MusicBand>, k: int, i: int)
    requires 0 <= i < k <= |s|
  {
    forall j :: i < j < k ==> s[j].id != s[i].id
  }

  /** `index` is what `put(band.getId(), band)` over the first `k` bands of `s` leaves: one
      key per ID present, and under it the last band with that ID. */
  ghost predicate IndexesLastByIdUpTo(s: seq<MusicBand>, k: int, index: map<int, MusicBand>)
    requires 0 <= k <= |s|
  {
    && index.Keys == (set i | 0 <= i < k :: s[i].id)
    && forall i :: 0 <= i < k && LastWithIdUpTo(s, k, i) ==> index[s[i].id] == s[i]
  }

  /** The index built over all of `s`. */
  ghost predicate IndexesLastById(s: seq<MusicBand>, index: map<int, MusicBand>) {
    IndexesLastByIdUpTo(s, |s|, index)
  }

  lemma IndexStep(s: seq<MusicBand>, k: int, index: map<int, MusicBand>)
    requires 0 <= k < |s|
    requires IndexesLastByIdUpTo(s, k, index)
    ensures IndexesLastByIdUpTo(s, k + 1, index[s[k].id := s[k]])
  {
    var index' := index[s[k].id := s[k]];
    assert (set i | 0 <= i < k + 1 :: s[i].id) == (set i | 0 <= i < k :: s[i].id) + {s[k].id};
    forall i | 0 <= i < k + 1 && LastWithIdUpTo(s, k + 1, i) ensures index'[s[i].id] == s[i] {
      if i < k {
        assert s[k].id != s[i].id;
        assert LastWithIdUpTo(s, k, i);
      }
    }
  }

  /** The index rebuild of `loadFromFile`: a fresh map filled by a loop over the queue. */
  method IndexById(s: seq<MusicBand>) returns (index: map<int, MusicBand>)
    ensures IndexesLastById(s, index)
  {
    index := map[];
    for k := 0 to |s|
      invariant IndexesLastByIdUpTo(s, k, index)
    {
      IndexStep(s, k, index);
      index := index[s[k].id := s[k]];
    }
  }

  lemma {:induction false} DistinctIdsOnce(s: seq<MusicBand>)
    requires DistinctIds(s)
    ensures forall b :: b in multiset(s) ==> multiset(s)[b] == 1
  {
    if s != [] {
      assert s == [s[0]] + s[1..];
      DistinctIdsOnce(s[1..]);
      assert s[0] !in s[1..] by {
        forall j | 0 <= j < |s[1..]| ensures s[1..][j] != s[0] {
          assert s[1..][j] == s[j + 1];
        }
      }
    }
  }

  /** A load without duplicate IDs leaves the index and the queue consistent. */
  lemma LoadedIndexConsistent(s: seq<MusicBand>, index: map<int, MusicBand>)
    requires DistinctIds(s)
    requires IndexesLastById(s, index)
    ensures Consistent(multiset(s), index)
  {
    DistinctIdsOnce(s);
    forall b | b in multiset(s) ensures b.id in index && index[b.id] == b {
      var i :| 0 <= i < |s| && s[i] == b;
      assert LastWithIdUpTo(s, |s|, i);
    }
    forall id | id in index ensures index[id].id == id && index[id] in multiset(s) {
      var i :| 0 <= i < |s| && s[i].id == id;
      assert LastWithIdUpTo(s, |s|, i);
    }
  }

  /** Adding a band under an ID the index does not hold keeps the two consistent. */
  lemma AddFreshKeepsConsistent(queue: multiset<MusicBand>, index: map<int, MusicBand>, b: MusicBand)
    requires Consistent(queue, index)
    requires b.id !in index
    ensures Consistent(queue + multiset{b}, index[b.id := b])
  {
  }

  /** Adding a band whose ID the index already holds for another band (an ID loaded from
      the file that the counter hands out again) breaks consistency: the older band stays
      queued but is no longer indexed. */
  lemma AddCollidingBreaksConsistent(queue: multiset<MusicBand>, index: map<int, MusicBand>, b: MusicBand)
    requires Consistent(queue, index)
    requires b.id in index && index[b.id] != b
    ensures !Consistent(queue + multiset{b}, index[b.id := b])
  {
  }

  /** `removeById` on an indexed ID keeps consistency. */
  lemma RemoveIndexedKeepsConsistent(queue: multiset<MusicBand>, index: map<int, MusicBand>, id: int)
    requires Consistent(queue, index)
    requires id in index
    ensures Consistent(queue - multiset{index[id]}, index - {id})
  {
  }

  /** Polling the queue without touching the index (`removeFirst`, `removeHead`) breaks
      consistency: the polled band's ID is still indexed. */
  lemma PollBreaksConsistent(queue: multiset<MusicBand>, index: map<int, MusicBand>, h: MusicBand)
    requires Consistent(queue, index)
    requires h in queue
    ensures !Consistent(queue - multiset{h}, index)
  {
  }

  /** After such a poll the index entry is stale: `removeById` of the polled band's ID
      still finds it and reports success, yet the queue does not change. */
  lemma StaleEntryAfterPoll(queue: multiset<MusicBand>, index: map<int, MusicBand>, h: MusicBand)
    requires Consistent(queue, index)
    requires h in queue
    ensures h.id in index
    ensures (queue - multiset{h}) - multiset{index[h.id]} == queue - multiset{h}
  {
  }

  /** The rejection branch of `addIfMin` removes the new band from the queue but not from
      the index, which breaks consistency. */
  lemma DiscardBreaksConsistent(queue: multiset<MusicBand>, index: map<int, MusicBand>, b: MusicBand)
    requires Consistent(queue, index)
    requires b.id !in index
    ensures !Consistent(queue + multiset{b} - multiset{b}, index[b.id := b])
  {
    var index' := index[b.id := b];
    assert b.id in index' && index'[b.id] == b;
    assert b !in queue;
    assert queue + multiset{b} - multiset{b} == queue;
    assert b !in queue + multiset{b} - multiset{b};
  }

  predicate AllAlbumsPresent(s: seq<MusicBand>) {
    forall i :: 0 <= i < |s| ==> s[i].albumsCount.Some?
  }

  /** `mapToInt(getAlbumsCount).min().orElse(Integer.MAX_VALUE)`; unboxing needs every
      count present. */
  function MinAlbums(s: seq<MusicBand>): (m: Int32)
    requires AllAlbumsPresent(s)
    ensures |s| == 0 ==> m == MaxInt
    ensures |s| > 0 ==> exists i :: 0 <= i < |s| && s[i].albumsCount.value == m
    ensures forall i :: 0 <= i < |s| ==> m <= s[i].albumsCount.value
  {
    if |s| == 0 then MaxInt
    else if |s| == 1 then s[0].albumsCount.value
    else
      var rest := MinAlbums(s[1..]);
      assert forall i :: 1 <= i < |s| ==> s[i] == s[1..][i - 1];
      if s[0].albumsCount.value <= rest then s[0].albumsCount.value else rest
  }

  /** A band whose albums count is `Integer.MAX_VALUE` is never kept by `addIfMin`, not
      even by an empty collection, because the default minimum is that same value. */
  lemma MaxIntAlbumsNeverBelowMin(s: seq<MusicBand>)
    requires AllAlbumsPresent(s)
    ensures !(MaxInt < MinAlbums(s))
  {
  }

  /** What `addIfMin` did. */
  datatype AddIfMinOutcome =
    | NotBuilt(error: BandError)   // the constructor rejected the input; nothing changed
    | Kept(band: MusicBand)        // the new band stays in both structures
    | Discarded(band: MusicBand)   // the new band was taken out of the queue again

  class MusicBandManager {
    /** The priority queue, in iteration order. */
    var bands: seq<MusicBand>
    /** The ID index. */
    var bandsById: map<int, MusicBand>
    var initializationDate: Timestamp

    ghost predicate Synced()
      reads this
    {
      Consistent(multiset(bands), bandsById)
    }

    /** `MusicBandManager(filePath)`: empty structures, then `loadFromFile`. `loaded` is the
        unmarshalled list, `None` when the file is missing, empty or unreadable. */
    constructor (loaded: Option<seq<MusicBand>>, now: Timestamp)
      ensures initializationDate == now
      ensures loaded.None? ==> bands == [] && bandsById == map[]
      ensures loaded.Some? ==> multiset(bands) == multiset(loaded.value) && IndexesLastById(bands, bandsById)
      ensures loaded.None? || DistinctIds(loaded.value) ==> Synced()
    {
      bands := [];
      bandsById := map[];
      initializationDate := now;
      new;
      LoadFromFile(loaded);
    }

    /** `loadFromFile`: on a successful load the queue holds the loaded bands and the index
        is rebuilt from it; otherwise nothing changes. */
    method LoadFromFile(loaded: Option<seq<MusicBand>>)
      modifies this`bands, this`bandsById
      ensures loaded.None? ==> bands == old(bands) && bandsById == old(bandsById)
      ensures loaded.Some? ==> multiset(bands) == multiset(loaded.value) && IndexesLastById(bands, bandsById)
      ensures loaded.Some? && DistinctIds(loaded.value) ==> Synced()
    {
      if loaded.Some? {
        bands := loaded.value;
        bandsById := IndexById(bands);
        if DistinctIds(bands) {
          LoadedIndexConsistent(bands, bandsById);
        }
      }
    }

    /** The insertion part of the static `addBand`: construct the band (drawing its ID from
        `counter`), then put it in the queue and file it in the index under its ID. A
        rejected construction changes nothing. */
    method AddBand(counter: IdCounter, input: BandInput, now: Timestamp) returns (r: Result<MusicBand, BandError>)
      modifies this`bands, this`bandsById, counter
      ensures (r, counter.next) == Construct(old(counter.next), input, now)
      ensures r.Failure? ==> bands == old(bands) && bandsById == old(bandsById)
      ensures r.Success? ==> && multiset(bands) == old(multiset(bands)) + multiset{r.value}
                             && bandsById == old(bandsById)[r.value.id := r.value]
      ensures r.Success? && old(Synced()) && r.value.id !in old(bandsById) ==> Synced()
    {
      r := counter.NewMusicBand(input, now);
      if r.Success? {
        ghost var queue, index := multiset(bands), bandsById;
        bands := bands + [r.value];
        bandsById := bandsById[r.value.id := r.value];
        if Consistent(queue, index) && r.value.id !in index {
          AddFreshKeepsConsistent(queue, index, r.value);
        }
      }
    }

    /** `removeById(id)`: when the index has `id`, that entry and that band go; otherwise
        false and nothing changes. Consistency is kept. */
    method RemoveById(id: Int32) returns (removed: bool)
      modifies this`bands, this`bandsById
      ensures removed <==> id in old(bandsById)
      ensures removed ==> && bandsById == old(bandsById) - {id}
                          && multiset(bands) == old(multiset(bands)) - multiset{old(bandsById)[id]}
      ensures !removed ==> bands == old(bands) && bandsById == old(bandsById)
      ensures old(Synced()) ==> Synced()
    {
      removed := id in bandsById;
      if removed {
        var band := bandsById[id];
        ghost var queue, index := multiset(bands), bandsById;
        bandsById := bandsById - {id};
        bands := RemoveOne(bands, band);
        if Consistent(queue, index) {
          RemoveIndexedKeepsConsistent(queue, index, id);
        }
      }
    }

    /** `clear()`: both structures empty. */
    method Clear()
      modifies this`bands, this`bandsById
      ensures bands == [] && bandsById == map[]
      ensures Synced()
    {
      bands := [];
      bandsById := map[];
    }

    /** `removeFirst()`: polls the minimum-ID band when there is one; the index is left
        alone, so a consistent store stops being consistent. */
    method RemoveFirst() returns (removed: bool)
      modifies this`bands
      ensures removed <==> |old(bands)| > 0
      ensures removed ==> && Peek(old(bands)).Some?
                          && multiset(bands) == old(multiset(bands)) - multiset{Peek(old(bands)).value}
      ensures !removed ==> bands == old(bands)
      ensures removed && old(Synced()) ==> !Synced()
    {
      var head := Peek(bands);
      removed := head.Some?;
      if removed {
        ghost var queue := multiset(bands);
        bands := RemoveOne(bands, head.value);
        if Consistent(queue, bandsById) {
          PollBreaksConsistent(queue, bandsById, head.value);
        }
      }
    }

    /** `removeHead()`: like `removeFirst`, and the polled band is what gets displayed. */
    method RemoveHead() returns (head: Option<MusicBand>)
      modifies this`bands
      ensures head == Peek(old(bands))
      ensures head.Some? ==> multiset(bands) == old(multiset(bands)) - multiset{head.value}
      ensures head.None? ==> bands == old(bands)
      ensures head.Some? && old(Synced()) ==> !Synced()
    {
      head := Peek(bands);
      if head.Some? {
        ghost var queue := multiset(bands);
        bands := RemoveOne(bands, head.value);
        if Consistent(queue, bandsById) {
          PollBreaksConsistent(queue, bandsById, head.value);
        }
      }
    }

    /** `bands.remove(newBand)` in the rejection branch of `addIfMin`: the band just added
        leaves the queue, and its index entry stays. */
    method DropFromQueue(b: MusicBand, ghost queue: multiset<MusicBand>, ghost index: map<int, MusicBand>)
      requires multiset(bands) == queue + multiset{b}
      requires bandsById == index[b.id := b]
      modifies this`bands
      ensures multiset(bands) == queue
      ensures Consistent(queue, index) && b.id !in index ==> !Synced()
    {
      bands := RemoveOne(bands, b);
      if Consistent(queue, index) && b.id !in index {
        DiscardBreaksConsistent(queue, index, b);
      }
    }

    /** `addIfMin()`: takes the minimum albums count of the stored bands, adds the new band
        through `addBand`, and keeps it only when its albums count is strictly below that
        minimum; otherwise it is taken out of the queue again, but stays in the index. */
    method AddIfMin(counter: IdCounter, input: BandInput, now: Timestamp) returns (outcome: AddIfMinOutcome)
      requires AllAlbumsPresent(bands)
      requires input.albumsCount.Some? || Check(input).Some?
      modifies this`bands, this`bandsById, counter
      ensures outcome.NotBuilt? <==> Check(input).Some?
      ensures outcome.NotBuilt? ==> && Some(outcome.error) == Check(input)
                                    && bands == old(bands) && bandsById == old(bandsById)
                                    && counter.next == old(counter.next)
      ensures !outcome.NotBuilt? ==> && Construct(old(counter.next), input, now) == (Success(outcome.band), counter.next)
                                     && bandsById == old(bandsById)[outcome.band.id := outcome.band]
                                     && (outcome.Kept? <==> outcome.band.albumsCount.value < old(MinAlbums(bands)))
      ensures outcome.Kept? ==> multiset(bands) == old(multiset(bands)) + multiset{outcome.band}
      ensures outcome.Discarded? ==> multiset(bands) == old(multiset(bands))
      ensures outcome.Kept? && old(Synced()) && outcome.band.id !in old(bandsById) ==> Synced()
      ensures outcome.Discarded? && old(Synced()) && outcome.band.id !in old(bandsById) ==> !Synced()
    {
      var minAlbums := MinAlbums(bands);
      ghost var queue, index := multiset(bands), bandsById;
      var r := AddBand(counter, input, now);
      if r.Failure? {
        outcome := NotBuilt(r.error);
      } else if r.value.albumsCount.value < minAlbums {
        outcome := Kept(r.value);
      } else {
        DropFromQueue(r.value, queue, index);
        outcome := Discarded(r.value);
      }
    }

    /** `maxByAlbumsCount()`: `max` under `Integer`'s natural order of the albums count.
        Comparing unboxes both counts, so two or more bands need every count present; a
        single band is returned without a comparison. */
    function MaxByAlbumsCount(): (r: Option<MusicBand>)
      reads this
      requires |bands| < 2 || AllAlbumsPresent(bands)
      ensures r.None? <==> |bands| == 0
      ensures r.Some? ==> r.value in bands
      ensures r.Some? && |bands| >= 2 ==>
                r.value.albumsCount.Some? &&
                forall i :: 0 <= i < |bands| ==> bands[i].albumsCount.value <= r.value.albumsCount.value
      ensures r.Some? ==> exists k :: 0 <= k < |bands| && bands[k] == r.value
                                      && forall j :: 0 <= j < k ==> AlbumsOrZero(bands[j]) < AlbumsOrZero(r.value)
    {
      var r := CollectionManagerModel.MaxByAlbumsCount(bands);
      assert r.Some? && |bands| >= 2 ==> r.value.albumsCount.Some?;
      r
    }

    /** The count in `countLessThanBestAlbum()`: choice 1 counts bands whose best album
        has fewer tracks than `userValue`, choice 2 those whose sales are below it; any
        other choice gives no count. */
    function CountLessThanBestAlbum(choice: Int32, userValue: Int32): (r: Option<nat>)
      reads this
      ensures r.None? <==> choice != 1 && choice != 2
      ensures choice == 1 ==> r == Some(|set i | 0 <= i < |bands| && bands[i].bestAlbum.tracks < userValue|)
      ensures choice == 2 ==> r == Some(|set i | 0 <= i < |bands| && bands[i].bestAlbum.sales < userValue as real|)
      ensures r.Some? ==> r.value <= |bands|
    {
      if choice == 1 then
        assert BelowPositions(bands, Tracks, userValue as real)
            == set i | 0 <= i < |bands| && bands[i].bestAlbum.tracks < userValue;
        Some(CountBelow(bands, Tracks, userValue as real))
      else if choice == 2 then
        assert BelowPositions(bands, Sales, userValue as real)
            == set i | 0 <= i < |bands| && bands[i].bestAlbum.sales < userValue as real;
        Some(CountBelow(bands, Sales, userValue as real))
      else None
    }
  }
}
