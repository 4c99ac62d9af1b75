/** The Mars rover photo page: sol validation against each rover's last
    sol, the camera-category filter, and the paginated gallery driven by the
    filter buttons and the "load more" button.

    The gallery is a value; each user action is a function from one gallery
    to the next, and the photo request's outcome is a parameter. */
module MarsRover {
  import opened Wrappers
  import opened Text
  import opened Sequences

  datatype Rover = Curiosity | Opportunity | Spirit | Perseverance

  /** `roverData[rover].maxSol`. */
  function MaxSol(r: Rover): (m: int)
    ensures m >= 1000
  {
    match r
    case Curiosity => 4000
    case Opportunity => 5111
    case Spirit => 2208
    case Perseverance => 1000
  }

  datatype SolError = InvalidSol | SolTooLarge(maxSol: int)

  /** The checks of `loadRoverPhotos`. `sol` is `parseInt` of the input, with
      `None` for NaN; a missing, NaN, zero or negative sol is refused first,
      then one beyond the rover's last sol. */
  function ValidateSol(rover: Rover, sol: Option<int>): (r: Result<int, SolError>)
    ensures r.Ok? <==> sol.Some? && 1 <= sol.value <= MaxSol(rover)
    ensures r.Ok? ==> r.value == sol.value
    ensures r == Err(InvalidSol) <==> sol.None? || sol.value < 1
    ensures r == Err(SolTooLarge(MaxSol(rover))) <==> sol.Some? && sol.value > MaxSol(rover)
  {
    if sol.None? || sol.value == 0 || sol.value < 1 then Err(InvalidSol)
    else if sol.value > MaxSol(rover) then Err(SolTooLarge(MaxSol(rover)))
    else Ok(sol.value)
  }

  datatype Photo = Photo(id: int, cameraName: string)

  // ---------------------------------------------------------------------
  // Category filter

  /** Whether a photo belongs to the category of a filter button. */
  predicate InCategory(filter: string, p: Photo) {
    var cam := Lower(p.cameraName);
    if filter == "landscape" then Contains(cam, "mast") || Contains(cam, "navcam") || Contains(cam, "pancam")
    else if filter == "closeup" then Contains(cam, "mahli") || Contains(cam, "mi") || Contains(cam, "chemcam")
    else if filter == "panoramic" then Contains(cam, "pancam") || Contains(cam, "navcam")
    else true
  }

  predicate KnownCategory(filter: string) {
    filter == "landscape" || filter == "closeup" || filter == "panoramic"
  }

  /** The photos a filter button shows, in the order received. */
  function FilterPhotos(photos: seq<Photo>, filter: string): (r: seq<Photo>)
    ensures !KnownCategory(filter) ==> r == photos
    ensures forall i :: 0 <= i < |r| ==> InCategory(filter, r[i])
    ensures forall i :: 0 <= i < |photos| && InCategory(filter, photos[i]) ==> photos[i] in r
  {
    if filter == "all" then photos
    else
      var keep := (p: Photo) => InCategory(filter, p);
      var r := Filter(photos, keep);
      assert !KnownCategory(filter) ==> r == photos by {
        if !KnownCategory(filter) {
          FilterAll(photos, keep);
        }
      }
      FilterMembers(photos, keep);
      r
  }

  /** Filtering keeps the photos' order. */
  lemma FilterPhotosKeepsOrder(photos: seq<Photo>, filter: string)
    ensures IsSubsequence(FilterPhotos(photos, filter), photos)
  {
    if filter == "all" {
      FilterAll(photos, x => true);
      FilterIsSubsequence(photos, x => true);
    } else {
      FilterIsSubsequence(photos, (p: Photo) => InCategory(filter, p));
    }
  }

  /** Every panoramic camera is also a landscape camera. */
  lemma PanoramicWithinLandscape(photos: seq<Photo>)
    ensures IsSubsequence(FilterPhotos(photos, "panoramic"), FilterPhotos(photos, "landscape"))
  {
    FilterStronger(photos, (p: Photo) => InCategory("panoramic", p), (p: Photo) => InCategory("landscape", p));
  }

  // ---------------------------------------------------------------------
  // Pagination

  const PhotosPerPage: int := 12

  /** `s.slice(from, to)` for `0 <= from <= to`: the elements at the indices
      from `from` up to (not including) `to` that exist in `s`, in order. */
  function Slice<T>(s: seq<T>, from: int, to: int): (r: seq<T>)
    requires 0 <= from <= to
    ensures from + |r| <= |s| || |r| == 0
    ensures |r| <= to - from
    ensures |r| == to - from || from + |r| >= |s|
    ensures forall i :: 0 <= i < |r| ==> r[i] == s[from + i]
  {
    if from >= |s| then [] else s[from..MinInt(to, |s|)]
  }

  /** The page's gallery: the photos of the last request, the active filter
      button, the `displayedPhotos` counter, the photo cards on screen and
      whether the "load more" button is visible. */
  datatype Gallery = Gallery(photos: seq<Photo>, filter: string, displayed: nat,
                             shown: seq<Photo>, moreVisible: bool)

  function Filtered(g: Gallery): seq<Photo> {
    FilterPhotos(g.photos, g.filter)
  }

  /** The cards on screen are exactly the first `displayed` filtered photos,
      and "load more" is visible exactly while some remain. */
  predicate Consistent(g: Gallery) {
    && g.displayed <= |Filtered(g)|
    && g.shown == Filtered(g)[..g.displayed]
    && (g.moreVisible <==> g.displayed < |Filtered(g)|)
  }

  /** Whenever "load more" can be clicked, the gallery is consistent. */
  predicate Invariant(g: Gallery) {
    g.moreVisible ==> Consistent(g)
  }

  /** Before the first request. The button's initial visibility comes from
      the page markup; it is taken as hidden. */
  const Initial: Gallery := Gallery([], "all", 0, [], false)

  /** `displayFilteredPhotos`: the first page of the filtered photos. */
  function ShowFiltered(g: Gallery): (r: Gallery)
    ensures Consistent(r)
    ensures r.photos == g.photos && r.filter == g.filter
    ensures r.displayed == MinInt(PhotosPerPage, |Filtered(g)|)
  {
    var f := Filtered(g);
    var d := MinInt(PhotosPerPage, |f|);
    g.(displayed := d, shown := f[..d], moreVisible := d < |f|)
  }

  /** A filter button click. */
  function SelectFilter(g: Gallery, filter: string): (r: Gallery)
    ensures Consistent(r) && r.filter == filter && r.photos == g.photos
    ensures r.displayed == MinInt(PhotosPerPage, |FilterPhotos(g.photos, filter)|)
  {
    ShowFiltered(g.(filter := filter))
  }

  /** `loadMorePhotos`: append the next page, hide the button once all are shown. */
  function LoadMore(g: Gallery): (r: Gallery)
    ensures r.photos == g.photos && r.filter == g.filter
    ensures Consistent(g) ==> Consistent(r)
    ensures Consistent(g) ==>
      && r.displayed == MinInt(g.displayed + PhotosPerPage, |Filtered(g)|)
      && r.shown == g.shown + Filtered(g)[g.displayed..r.displayed]
    ensures r.displayed >= |Filtered(g)| ==> !r.moreVisible
    ensures Invariant(g) ==> Invariant(r)
  {
    var f := Filtered(g);
    var next := Slice(f, g.displayed, g.displayed + PhotosPerPage);
    var d := g.displayed + |next|;
    var r := g.(displayed := d, shown := g.shown + next, moreVisible := if d >= |f| then false else g.moreVisible);
    assert Consistent(g) ==> r.shown == f[..d] by {
      if Consistent(g) {
        assert f[..g.displayed] + f[g.displayed..d] == f[..d];
      }
    }
    r
  }

  /** `loadRoverPhotos`: validate the sol, then show the photos `response`
      delivers. An empty answer shows a notice, empties the photo list and
      leaves the counter as it was; a failed request shows an error and keeps
      the previous answer's photos, which are assigned only after the request
      returns; both hide "load more". */
  function LoadPhotos(g: Gallery, rover: Rover, sol: Option<int>, response: Fetched<seq<Photo>>): (r: Gallery)
    ensures ValidateSol(rover, sol).Err? ==> r == g
    ensures ValidateSol(rover, sol).Ok? && response.Fetched? && |response.payload| > 0 ==>
      && r.photos == response.payload && r.filter == g.filter && Consistent(r)
      && r.displayed == MinInt(PhotosPerPage, |FilterPhotos(response.payload, g.filter)|)
    ensures ValidateSol(rover, sol).Ok? && (response.FetchFailed? || |response.payload| == 0) ==>
      !r.moreVisible && r.shown == []
    ensures ValidateSol(rover, sol).Ok? && response.FetchFailed? ==>
      r.photos == g.photos && r.filter == g.filter && r.displayed == g.displayed
    ensures ValidateSol(rover, sol).Ok? && response.Fetched? && |response.payload| == 0 ==>
      r.photos == [] && r.filter == g.filter && r.displayed == g.displayed
    ensures Invariant(g) ==> Invariant(r)
  {
    if ValidateSol(rover, sol).Err? then g
    else match response
      case FetchFailed => g.(shown := [], moreVisible := false)
      case Fetched(ps) =>
        if |ps| == 0 then g.(photos := [], shown := [], moreVisible := false)
        else ShowFiltered(g.(photos := ps, displayed := 0))
  }

  /** A user action on the page. */
  datatype Action =
    | Load(rover: Rover, sol: Option<int>, response: Fetched<seq<Photo>>)
    | ChooseFilter(filter: string)
    | More

  function Step(g: Gallery, a: Action): Gallery {
    match a
    case Load(rover, sol, response) => LoadPhotos(g, rover, sol, response)
    case ChooseFilter(filter) => SelectFilter(g, filter)
    case More => LoadMore(g)
  }

  function Run(g: Gallery, actions: seq<Action>): Gallery
    decreases |actions|
  {
    if |actions| == 0 then g else Run(Step(g, actions[0]), actions[1..])
  }

  /** Along any sequence of actions from the initial page, whenever "load
      more" is visible the cards on screen are exactly the first `displayed`
      filtered photos, in order, and more remain. */
  lemma {:induction false} InvariantAlongRun(g: Gallery, actions: seq<Action>)
    requires Invariant(g)
    ensures Invariant(Run(g, actions))
    decreases |actions|
  {
    if |actions| > 0 {
      var g' := Step(g, actions[0]);
      assert Invariant(g');
      InvariantAlongRun(g', actions[1..]);
    }
  }

  lemma InitialInvariant()
    ensures Invariant(Initial) && Consistent(Initial)
  {
  }
}
