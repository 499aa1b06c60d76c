/** The story record shared by the catalogue and the globe's pins. */
module Stories {

  datatype Option<T> = None | Some(value: T) {
    /** The wrapped value, or `default` when there is none (JavaScript's `x || default`). */
    function GetOr(default: T): T {
      match this
      case Some(v) => v
      case None => default
    }
  }

  datatype Result<T, E> = Success(value: T) | Failure(error: E)

  /** The three themes offered by the theme switcher. */
  datatype Theme = Historical | SciFi | Cultural

  /** A latitude or longitude in degrees. Floating point is not modelled, so a
      coordinate is an opaque value that can only be compared. */
  type Coord(==)

  /** The `media` object of a story; `{}` is `Media(None)`. */
  datatype Media = Media(imageUrl: Option<string>)

  /** A story record as the app holds it. A globe pin's data is the same record
      with `size` and `color` filled in, so both use this type; a bundled story
      may carry its own `size` or `color`, which then win over the pin defaults. */
  datatype Story = Story(
    id: string,
    title: string,
    lat: Coord,
    lng: Coord,
    content: string,
    media: Media,
    size: Option<real>,
    color: Option<string>)

  /** Every story id occurs once. */
  predicate UniqueIds(stories: seq<Story>) {
    forall i, j :: 0 <= i < j < |stories| ==> stories[i].id != stories[j].id
  }
}
