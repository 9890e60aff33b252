/** models/Album.java: an immutable album with a non-empty name, positive sales and a
    positive number of tracks. */
module AlbumModel {
  import opened Wrappers
  import opened JavaTypes

  /** `float sales` is modelled as a real (see README, "Left out"). */
  datatype Album = Album(name: string, sales: real, tracks: Int32)

  /** The constructor's checks, in the order it makes them. */
  datatype AlbumError = EmptyAlbumName | NonPositiveSales | NonPositiveTracks

  /** What every constructed `Album` satisfies. */
  predicate ValidAlbum(a: Album) {
    |a.name| > 0 && a.sales > 0.0 && a.tracks > 0
  }

  /** The validating constructor `Album(String name, float sales, int tracks)`; a `null`
      name is `None`. The first failing check decides the error; the getters return
      exactly the supplied values. */
  function NewAlbum(name: Option<string>, sales: real, tracks: Int32): (r: Result<Album, AlbumError>)
    ensures r.Success? <==> name.Some? && |name.value| > 0 && sales > 0.0 && tracks > 0
    ensures r.Success? ==> r.value.name == name.value && r.value.sales == sales
                           && r.value.tracks == tracks && ValidAlbum(r.value)
    ensures (name.None? || name.value == []) ==> r == Failure(EmptyAlbumName)
    ensures name.Some? && name.value != [] && sales <= 0.0 ==> r == Failure(NonPositiveSales)
    ensures name.Some? && name.value != [] && sales > 0.0 && tracks <= 0 ==> r == Failure(NonPositiveTracks)
  {
    if name.None? || name.value == [] then Failure(EmptyAlbumName)
    else if sales <= 0.0 then Failure(NonPositiveSales)
    else if tracks <= 0 then Failure(NonPositiveTracks)
    else Success(Album(name.value, sales, tracks))
  }

  /** Every valid album is rebuilt unchanged from its getters. */
  lemma NewAlbumOnto(a: Album)
    requires ValidAlbum(a)
    ensures NewAlbum(Some(a.name), a.sales, a.tracks) == Success(a)
  {
  }
}
