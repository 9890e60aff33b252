/** managers/CollectionManager.java: a priority queue of bands ordered by ID, the
    mutators that change it in place, and the stream queries over its contents. */
module CollectionManagerModel {
  import opened Wrappers
  import opened JavaTypes
  import opened AlbumModel
  import opened MusicBandModel
  import opened BandQueue

  /** `getById`: the first band in iteration order whose ID is `id` (`filter` + `findFirst`). */
  function GetById(s: seq<MusicBand>, id: int): (r: Option<MusicBand>)
    ensures r.None? <==> forall i :: 0 <= i < |s| ==> s[i].id != id
    ensures r.Some? ==> exists k :: 0 <= k < |s| && s[k] == r.value && r.value.id == id
                                    && forall j :: 0 <= j < k ==> s[j].id != id
  {
    if s == [] then None
    else if s[0].id == id then Some(s[0])
    else
      var r := GetById(s[1..], id);
      assert r.Some? ==> exists k :: 0 <= k < |s| && s[k] == r.value && r.value.id == id
                                     && forall j :: 0 <= j < k ==> s[j].id != id by {
        if r.Some? {
          var k :| 0 <= k < |s[1..]| && s[1..][k] == r.value && r.value.id == id
                   && forall j :: 0 <= j < k ==> s[1..][j].id != id;
          assert s[k + 1] == r.value;
          assert forall j :: 0 <= j < k + 1 ==> s[j].id != id by {
            forall j | 0 <= j < k + 1 ensures s[j].id != id {
              if j > 0 { assert s[j] == s[1..][j - 1]; }
            }
          }
        }
      }
      r
  }

  /** The key of `maxByAlbumsCount`: an absent albums count counts as 0. */
  function AlbumsOrZero(b: MusicBand): int {
    if b.albumsCount.Some? then b.albumsCount.value else 0
  }

  /** Among the first `n` bands, `k` has the largest key and no earlier band ties with it. */
  ghost predicate IsFirstMax(s: seq<MusicBand>, k: int, n: int) {
    && 0 <= k < n <= |s|
    && (forall j :: 0 <= j < n ==> AlbumsOrZero(s[j]) <= AlbumsOrZero(s[k]))
    && (forall j :: 0 <= j < k ==> AlbumsOrZero(s[j]) < AlbumsOrZero(s[k]))
  }

  /** `Stream.max`'s left-to-right reduction with `maxBy`, which keeps the accumulated band
      unless the next one compares strictly greater; `best` is the index of the accumulator
      after the first `i` bands. */
  function MaxFrom(s: seq<MusicBand>, best: nat, i: nat): (k: nat)
    requires IsFirstMax(s, best, i)
    ensures IsFirstMax(s, k, |s|)
    decreases |s| - i
  {
    if i == |s| then best
    else MaxFrom(s, if AlbumsOrZero(s[best]) >= AlbumsOrZero(s[i]) then best else i, i + 1)
  }

  /** `maxByAlbumsCount`: empty exactly for an empty collection; otherwise a member whose
      albums count (absent read as 0) is at least every member's, the first such in
      iteration order. */
  function MaxByAlbumsCount(s: seq<MusicBand>): (r: Option<MusicBand>)
    ensures r.None? <==> |s| == 0
    ensures r.Some? ==> r.value in s && forall i :: 0 <= i < |s| ==> AlbumsOrZero(s[i]) <= AlbumsOrZero(r.value)
    ensures r.Some? ==> exists k :: 0 <= k < |s| && s[k] == r.value
                                    && forall j :: 0 <= j < k ==> AlbumsOrZero(s[j]) < AlbumsOrZero(r.value)
  {
    if |s| == 0 then None
    else
      var k := MaxFrom(s, 0, 1);
      Some(s[k])
  }

  /** The best-album field a count compares against its threshold. */
  datatype Criterion = Tracks | Sales

  /** The band's best album has a field value strictly below `v`. */
  predicate Below(b: MusicBand, c: Criterion, v: real) {
    match c
    case Tracks => b.bestAlbum.tracks as real < v
    case Sales => b.bestAlbum.sales < v
  }

  /** The positions of the bands a count selects: the reference the count is proved against. */
  ghost function BelowPositions(s: seq<MusicBand>, c: Criterion, v: real): set<int> {
    set i | 0 <= i < |s| && Below(s[i], c, v)
  }

  lemma BelowPositionsSnoc(s: seq<MusicBand>, c: Criterion, v: real)
    requires |s| > 0
    ensures BelowPositions(s, c, v) == BelowPositions(s[..|s| - 1], c, v)
                                       + (if Below(s[|s| - 1], c, v) then {|s| - 1} else {})
  {
  }

  /** `filter(...).count()`: the number of bands whose best album is below `v`. */
  function CountBelow(s: seq<MusicBand>, c: Criterion, v: real): (n: nat)
    ensures n == |BelowPositions(s, c, v)|
    ensures n <= |s|
    decreases |s|
  {
    if s == [] then 0
    else
      BelowPositionsSnoc(s, c, v);
      CountBelow(s[..|s| - 1], c, v) + (if Below(s[|s| - 1], c, v) then 1 else 0)
  }

  /** `countLessThanBestAlbum(bestAlbum)`: the number of bands whose best album has fewer
      tracks than `bestAlbum`; 0 for an empty collection and never above its size. */
  function CountLessThanBestAlbum(s: seq<MusicBand>, bestAlbum: Album): (n: nat)
    ensures n == |set i | 0 <= i < |s| && s[i].bestAlbum.tracks < bestAlbum.tracks|
    ensures n <= |s|
    ensures s == [] ==> n == 0
  {
    assert BelowPositions(s, Tracks, bestAlbum.tracks as real)
        == set i | 0 <= i < |s| && s[i].bestAlbum.tracks < bestAlbum.tracks;
    CountBelow(s, Tracks, bestAlbum.tracks as real)
  }

  /** `map(MusicBand::getNumberOfParticipants)`. */
  function Participants(s: seq<MusicBand>): (p: seq<Option<int>>)
    ensures |p| == |s| && forall i :: 0 <= i < |s| ==> p[i] == s[i].numberOfParticipants
  {
    seq(|s|, i requires 0 <= i < |s| => s[i].numberOfParticipants)
  }

  predicate AllParticipantsPresent(s: seq<MusicBand>) {
    forall i :: 0 <= i < |s| ==> s[i].numberOfParticipants.Some?
  }

  /** The order the sort uses. On present values it is `Integer`'s natural order; the
      source never compares an absent value (that throws), so where `None` goes is
      immaterial and it is put first to make the order total. */
  predicate Le(a: Option<int>, b: Option<int>) {
    a.None? || (b.Some? && a.value <= b.value)
  }

  predicate SortedLe(r: seq<Option<int>>) {
    forall i, j :: 0 <= i < j < |r| ==> Le(r[i], r[j])
  }

  function Insert(x: Option<int>, r: seq<Option<int>>): (res: seq<Option<int>>)
    requires SortedLe(r)
    ensures multiset(res) == multiset(r) + multiset{x}
    ensures SortedLe(res)
  {
    if r == [] then [x]
    else if Le(x, r[0]) then [x] + r
    else
      var tail := Insert(x, r[1..]);
      assert r == [r[0]] + r[1..];
      assert forall y :: y in multiset(tail) ==> Le(r[0], y);
      assert forall k :: 0 <= k < |tail| ==> Le(r[0], tail[k]) by {
        forall k | 0 <= k < |tail| ensures Le(r[0], tail[k]) {
          assert tail[k] in multiset(tail);
        }
      }
      [r[0]] + tail
  }

  /** `sorted()` on a list of participant counts. */
  function Sort(xs: seq<Option<int>>): (r: seq<Option<int>>)
    ensures multiset(r) == multiset(xs)
    ensures SortedLe(r)
  {
    if xs == [] then []
    else
      assert xs == [xs[0]] + xs[1..];
      Insert(xs[0], Sort(xs[1..]))
  }

  lemma PermutationKeepsPresence(xs: seq<Option<int>>, r: seq<Option<int>>)
    requires multiset(r) == multiset(xs)
    requires forall i :: 0 <= i < |xs| ==> xs[i].Some?
    ensures forall i :: 0 <= i < |r| ==> r[i].Some?
  {
    forall i | 0 <= i < |r| ensures r[i].Some? {
      assert r[i] in multiset(xs);
    }
  }

  /** `printFieldAscendingNumberOfParticipants`: the participant counts of all bands as an
      ascending permutation. Sorting compares unboxed `Integer`s, so two or more bands
      need every count present (one band alone is never compared). */
  function ParticipantsAscending(s: seq<MusicBand>): (r: seq<Option<int>>)
    requires |s| < 2 || AllParticipantsPresent(s)
    ensures multiset(r) == multiset(Participants(s))
    ensures forall i, j :: 0 <= i < j < |r| ==> r[i].Some? && r[j].Some? && r[i].value <= r[j].value
  {
    if |s| < 2 then Participants(s)
    else
      var r := Sort(Participants(s));
      PermutationKeepsPresence(Participants(s), r);
      r
  }

  /** The test `addIfMin` makes: the queue is empty or `band` compares below its head,
      i.e. `band`'s ID is strictly below every ID in the queue. */
  function AddIfMinAccepts(s: seq<MusicBand>, band: MusicBand): (ok: bool)
    ensures ok <==> forall i :: 0 <= i < |s| ==> band.id < s[i].id
  {
    Peek(s).None? || CompareTo(band, Peek(s).value) < 0
  }

  /** A band just built by the counter is never accepted by `addIfMin` on a non-empty
      queue whose IDs all came from that counter earlier: IDs only grow. */
  lemma FreshBandNeverAcceptedAsMin(s: seq<MusicBand>, next: int, input: BandInput, now: Timestamp)
    requires |s| > 0
    requires forall i :: 0 <= i < |s| ==> s[i].id < next
    requires Construct(next, input, now).0.Success?
    ensures !AddIfMinAccepts(s, Construct(next, input, now).0.value)
  {
  }

  class CollectionManager {
    /** The queue, in iteration order. */
    var musicBands: seq<MusicBand>
    var initializationTime: Timestamp

    /** `CollectionManager(fileName)`: `loaded` is what the XML file yielded (empty when
        the file is missing, empty or unreadable); `now` is the clock reading. */
    constructor (loaded: seq<MusicBand>, now: Timestamp)
      ensures multiset(musicBands) == multiset(loaded)
      ensures initializationTime == now
    {
      musicBands := loaded;
      initializationTime := now;
    }

    /** `add(band)`: the collection grows by exactly that band. */
    method Add(band: MusicBand)
      modifies this`musicBands
      ensures multiset(musicBands) == old(multiset(musicBands)) + multiset{band}
    {
      musicBands := musicBands + [band];
    }

    /** `update(id, newBand)`: replaces the band `getById` finds by `newBand`; false, and
        nothing changes, when no band has `id`. */
    method Update(id: Int32, newBand: MusicBand) returns (updated: bool)
      modifies this`musicBands
      ensures updated <==> exists i :: 0 <= i < |old(musicBands)| && old(musicBands)[i].id == id
      ensures updated ==> && GetById(old(musicBands), id).Some?
                          && multiset(musicBands) == old(multiset(musicBands))
                               - multiset{GetById(old(musicBands), id).value} + multiset{newBand}
                          && |musicBands| == |old(musicBands)|
      ensures !updated ==> musicBands == old(musicBands)
    {
      var existing := GetById(musicBands, id);
      if existing.Some? {
        musicBands := RemoveOne(musicBands, existing.value) + [newBand];
        updated := true;
      } else {
        updated := false;
      }
    }

    /** `removeById(id)`: true exactly when some band has `id`; then that band, and no
        other, is removed. */
    method RemoveById(id: Int32) returns (removed: bool)
      modifies this`musicBands
      ensures removed <==> exists i :: 0 <= i < |old(musicBands)| && old(musicBands)[i].id == id
      ensures removed ==> && GetById(old(musicBands), id).Some?
                          && multiset(musicBands) == old(multiset(musicBands))
                               - multiset{GetById(old(musicBands), id).value}
                          && |musicBands| == |old(musicBands)| - 1
      ensures !removed ==> musicBands == old(musicBands)
    {
      var band := GetById(musicBands, id);
      if band.Some? {
        musicBands := RemoveOne(musicBands, band.value);
        removed := true;
      } else {
        removed := false;
      }
    }

    /** `clear()`. */
    method Clear()
      modifies this`musicBands
      ensures musicBands == []
    {
      musicBands := [];
    }

    /** `removeHead()`: `poll()` wrapped in an `Optional`: none on an empty collection,
        otherwise the minimum-ID band, which is removed. */
    method RemoveHead() returns (head: Option<MusicBand>)
      modifies this`musicBands
      ensures head == Peek(old(musicBands))
      ensures head.Some? ==> && multiset(musicBands) == old(multiset(musicBands)) - multiset{head.value}
                             && |musicBands| == |old(musicBands)| - 1
      ensures head.None? ==> musicBands == old(musicBands)
    {
      head := Peek(musicBands);
      if head.Some? {
        musicBands := RemoveOne(musicBands, head.value);
      }
    }

    /** `removeFirst()`: `poll() != null`. */
    method RemoveFirst() returns (removed: bool)
      modifies this`musicBands
      ensures removed <==> |old(musicBands)| > 0
      ensures removed ==> && Peek(old(musicBands)).Some?
                          && multiset(musicBands) == old(multiset(musicBands)) - multiset{Peek(old(musicBands)).value}
      ensures !removed ==> musicBands == old(musicBands)
    {
      var head := Peek(musicBands);
      removed := head.Some?;
      if removed {
        musicBands := RemoveOne(musicBands, head.value);
      }
    }

    /** `addIfMin(band)`: inserts exactly when the collection is empty or `band`'s ID is
        below the head's, and says whether it did. */
    method AddIfMin(band: MusicBand) returns (added: bool)
      modifies this`musicBands
      ensures added <==> |old(musicBands)| == 0 || forall i :: 0 <= i < |old(musicBands)| ==> band.id < old(musicBands)[i].id
      ensures added ==> multiset(musicBands) == old(multiset(musicBands)) + multiset{band}
      ensures !added ==> musicBands == old(musicBands)
    {
      added := AddIfMinAccepts(musicBands, band);
      if added {
        musicBands := musicBands + [band];
      }
    }
  }
}
