/** models/MusicBand.java (with models/MusicGenre.java folded in): the band entity, its
    validating constructor, the ID counter it draws from, and `compareTo`. */
module MusicBandModel {
  import opened Wrappers
  import opened JavaTypes
  import opened CoordinatesModel
  import opened AlbumModel

  /** The three-value genre enumeration. */
  datatype MusicGenre = ProgressiveRock | HipHop | Blues

  /** A constructed band. `numberOfParticipants` and `albumsCount` are nullable `Integer`s. */
  datatype MusicBand = MusicBand(
    id: int,
    name: string,
    coordinates: Coordinates,
    creationDate: Timestamp,
    numberOfParticipants: Option<Int32>,
    albumsCount: Option<Int32>,
    description: string,
    genre: MusicGenre,
    bestAlbum: Album)

  /** The arguments of the seven-argument constructor; a `null` argument is `None`. */
  datatype BandInput = BandInput(
    name: Option<string>,
    coordinates: Option<Coordinates>,
    numberOfParticipants: Option<Int32>,
    albumsCount: Option<Int32>,
    description: Option<string>,
    genre: Option<MusicGenre>,
    bestAlbum: Option<Album>)

  /** The constructor's checks, in the order it makes them. */
  datatype BandError =
    | EmptyName
    | NullCoordinates
    | NullDescription
    | NullGenre
    | NullBestAlbum
    | NonPositiveParticipants
    | NonPositiveAlbumsCount

  /** The field invariant every band built by the constructor satisfies. */
  predicate WellFormed(b: MusicBand) {
    && |b.name| > 0
    && (b.numberOfParticipants.Some? ==> b.numberOfParticipants.value > 0)
    && (b.albumsCount.Some? ==> b.albumsCount.value > 0)
  }

  /** The constructor's guard sequence: the first failing check, or `None` when all pass. */
  function Check(input: BandInput): (r: Option<BandError>)
    ensures r.None? <==> (&& input.name.Some? && |input.name.value| > 0
                          && input.coordinates.Some? && input.description.Some?
                          && input.genre.Some? && input.bestAlbum.Some?
                          && (input.numberOfParticipants.Some? ==> input.numberOfParticipants.value > 0)
                          && (input.albumsCount.Some? ==> input.albumsCount.value > 0))
  {
    if input.name.None? || input.name.value == [] then Some(EmptyName)
    else if input.coordinates.None? then Some(NullCoordinates)
    else if input.description.None? then Some(NullDescription)
    else if input.genre.None? then Some(NullGenre)
    else if input.bestAlbum.None? then Some(NullBestAlbum)
    else if input.numberOfParticipants.Some? && input.numberOfParticipants.value <= 0 then Some(NonPositiveParticipants)
    else if input.albumsCount.Some? && input.albumsCount.value <= 0 then Some(NonPositiveAlbumsCount)
    else None
  }

  /** The getters of `b` return exactly what `input` supplied, and `creationDate` is `now`. */
  predicate Carries(b: MusicBand, input: BandInput, now: Timestamp) {
    && input.name == Some(b.name)
    && input.coordinates == Some(b.coordinates)
    && b.creationDate == now
    && input.numberOfParticipants == b.numberOfParticipants
    && input.albumsCount == b.albumsCount
    && input.description == Some(b.description)
    && input.genre == Some(b.genre)
    && input.bestAlbum == Some(b.bestAlbum)
  }

  /** One construction attempt with the counter at `next`: the band (or the rejecting
      check) and the counter afterwards. Every check runs before the counter is read, so a
      rejected attempt consumes no ID. */
  function Construct(next: int, input: BandInput, now: Timestamp): (r: (Result<MusicBand, BandError>, int))
    ensures r.0.Failure? <==> Check(input).Some?
    ensures r.0.Failure? ==> Some(r.0.error) == Check(input) && r.1 == next
    ensures r.0.Success? ==> && r.0.value.id == next && r.1 == next + 1
                             && WellFormed(r.0.value) && Carries(r.0.value, input, now)
  {
    match Check(input)
    case Some(e) => (Failure(e), next)
    case None =>
      (Success(MusicBand(next, input.name.value, input.coordinates.value, now,
                         input.numberOfParticipants, input.albumsCount,
                         input.description.value, input.genre.value, input.bestAlbum.value)),
       next + 1)
  }

  /** The static `idCounter` made an explicit allocator object: it starts at 1 and the
      constructor takes its value and increments it (`getAndIncrement`). */
  class IdCounter {
    var next: int

    constructor ()
      ensures next == 1
    {
      next := 1;
    }

    /** `new MusicBand(name, coordinates, numberOfParticipants, albumsCount, description,
        genre, bestAlbum)` with the clock reading `now`. */
    method NewMusicBand(input: BandInput, now: Timestamp) returns (r: Result<MusicBand, BandError>)
      modifies this
      ensures (r, next) == Construct(old(next), input, now)
      ensures r.Failure? ==> next == old(next)
      ensures r.Success? ==> r.value.id == old(next) && next == old(next) + 1 && WellFormed(r.value)
    {
      var (res, n) := Construct(next, input, now);
      r, next := res, n;
    }
  }

  /** A run of construction attempts (arguments and clock reading) starting with the
      counter at `next`: the bands built, in creation order, and the final counter. */
  function ConstructAll(next: int, attempts: seq<(BandInput, Timestamp)>): (seq<MusicBand>, int)
    decreases |attempts|
  {
    if attempts == [] then ([], next)
    else
      var (r, next') := Construct(next, attempts[0].0, attempts[0].1);
      var (rest, last) := ConstructAll(next', attempts[1..]);
      (if r.Success? then [r.value] + rest else rest, last)
  }

  /** The number of attempts that pass every check. */
  function Accepted(attempts: seq<(BandInput, Timestamp)>): (n: nat)
    ensures n <= |attempts|
  {
    if attempts == [] then 0
    else (if Check(attempts[0].0).None? then 1 else 0) + Accepted(attempts[1..])
  }

  /** Successful constructions receive the consecutive IDs next, next+1, ...: exactly one
      per accepted attempt and none per rejected one. */
  lemma {:induction false} ConstructAllIds(next: int, attempts: seq<(BandInput, Timestamp)>)
    decreases |attempts|
    ensures var (bands, last) := ConstructAll(next, attempts);
            && |bands| == Accepted(attempts)
            && last == next + |bands|
            && forall i :: 0 <= i < |bands| ==> bands[i].id == next + i
  {
    if attempts != [] {
      var (r, next') := Construct(next, attempts[0].0, attempts[0].1);
      ConstructAllIds(next', attempts[1..]);
    }
  }

  /** Hence IDs are strictly increasing in creation order, start at the counter's value and
      are never reused: every one is below the final counter. */
  lemma IdsStrictlyIncreasing(next: int, attempts: seq<(BandInput, Timestamp)>)
    ensures var (bands, last) := ConstructAll(next, attempts);
            && (forall i, j :: 0 <= i < j < |bands| ==> bands[i].id < bands[j].id)
            && (forall i :: 0 <= i < |bands| ==> next <= bands[i].id < last)
  {
    ConstructAllIds(next, attempts);
  }

  /** `compareTo`: `Integer.compare(this.id, other.id)`. */
  function CompareTo(this_: MusicBand, other: MusicBand): (r: int)
    ensures r < 0 <==> this_.id < other.id
    ensures r == 0 <==> this_.id == other.id
    ensures r > 0 <==> this_.id > other.id
  {
    if this_.id < other.id then -1 else if this_.id == other.id then 0 else 1
  }

  /** The order `compareTo` defines looks at the ID alone and is antisymmetric. */
  lemma CompareToOnlyById(a: MusicBand, b: MusicBand, a': MusicBand, b': MusicBand)
    requires a.id == a'.id && b.id == b'.id
    ensures CompareTo(a, b) == CompareTo(a', b')
    ensures CompareTo(a, b) == -CompareTo(b, a)
  {
  }
}
