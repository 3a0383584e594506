/** Properties of the loader's backend selection, one lemma per promise. */
module EpisodeLoaderProperties {
  import opened Wrappers
  import opened EpisodeLoader

  /** The backend a call consults, given only that backend's outcome, agrees
      between two worlds: only the chosen backend matters. */
  ghost predicate AgreeOnChosen(b1: Backends, b2: Backends, kind: SourceKind)
  {
    && b1.downloaded == b2.downloaded
    && (Route(b1.downloaded, kind) == DownloadPath ==> b1.downloadUri == b2.downloadUri)
    && (Route(b1.downloaded, kind) == RemotePath ==> b1.remote == b2.remote)
    && (Route(b1.downloaded, kind) == LocalPath ==> b1.local == b2.local)
  }

  /** `isDownloaded` reports exactly the condition that sends both `getLinks`
      and `getLink` down the download path, whatever the source. */
  lemma IsDownloadedSelectsDownloadPath(b: Backends, kind: SourceKind)
    ensures IsDownloaded(b) <==> Route(b.downloaded, kind) == DownloadPath
    ensures IsDownloaded(b) ==> GetLinks(b, kind) == Success(ListOf(Downloaded(b.downloadUri)))
    ensures IsDownloaded(b) ==> GetLink(b, kind) == Success(Downloaded(b.downloadUri))
  {
  }

  /** The download check is tried first: once the episode is downloaded, the
      source variant is irrelevant, and even an unsupported source gets an
      answer rather than an error. */
  lemma DownloadedTakesPriority(b: Backends, k1: SourceKind, k2: SourceKind)
    requires b.downloaded
    ensures GetLinks(b, k1) == GetLinks(b, k2) && GetLinks(b, k1).Success?
    ensures GetLink(b, k1) == GetLink(b, k2) && GetLink(b, k1).Success?
  {
  }

  /** The downloaded case of `getLinks` yields the single link
      (uri, "download"), or the empty list when the download path fails; it
      never falls through to another backend. */
  lemma DownloadedLinks(b: Backends, kind: SourceKind)
    requires b.downloaded
    ensures b.downloadUri.Some? ==> GetLinks(b, kind) == Success([Link(b.downloadUri.value, DownloadTag)])
    ensures b.downloadUri.None? ==> GetLinks(b, kind) == Success([])
  {
  }

  /** Only the chosen backend's outcome influences either operation. */
  lemma OnlyChosenBackendConsulted(b1: Backends, b2: Backends, kind: SourceKind)
    requires AgreeOnChosen(b1, b2, kind)
    ensures GetLinks(b1, kind) == GetLinks(b2, kind)
    ensures GetLink(b1, kind) == GetLink(b2, kind)
  {
  }

  /** Not downloaded, an http source: `getLinks` is the remote list, same
      elements in the same order. */
  lemma RemotePassThrough(b: Backends)
    requires !b.downloaded
    ensures GetLinks(b, Http) == Success(b.remote)
  {
  }

  /** Not downloaded, the local source: at most the first link the source
      emitted; an empty list or a failure gives the empty list. */
  lemma LocalAtMostOne(b: Backends)
    requires !b.downloaded
    ensures b.local.Success? && |b.local.value| > 0 ==> GetLinks(b, Local) == Success([b.local.value[0]])
    ensures b.local.Failure? || |b.local.value| == 0 ==> GetLinks(b, Local) == Success([])
  {
  }

  /** Not downloaded, any other source: both operations fail, each with its
      own `error(...)` message; and that is the only way `getLinks` fails. */
  lemma UnsupportedSourceFails(b: Backends, kind: SourceKind)
    ensures GetLinks(b, kind).Failure? <==> !b.downloaded && kind == Other
    ensures !b.downloaded && kind == Other ==>
      && GetLinks(b, kind) == Failure(IllegalState(GetLinksUnsupported))
      && GetLink(b, kind) == Failure(IllegalState(GetLinkUnsupported))
  {
  }

  /** The downloaded case of `getLink` agrees with `getLinks`: the single
      element when the list is non-empty, null when it is empty. */
  lemma GetLinkAgreesWhenDownloaded(b: Backends, kind: SourceKind)
    requires b.downloaded
    ensures GetLinks(b, kind).Success? && GetLink(b, kind).Success?
    ensures |GetLinks(b, kind).value| == 1 ==> GetLink(b, kind) == Success(Some(GetLinks(b, kind).value[0]))
    ensures GetLinks(b, kind).value == [] ==> GetLink(b, kind) == Success(None)
  {
  }

  /** The remote case of `getLink` is the head of the remote list; an empty
      list is an error, not null. */
  lemma RemoteGetLinkIsHead(b: Backends)
    requires !b.downloaded
    ensures |b.remote| > 0 ==> GetLink(b, Http) == Success(Some(b.remote[0]))
    ensures |b.remote| == 0 ==> GetLink(b, Http) == Failure(NoSuchElement)
    ensures GetLink(b, Http).Success? ==> GetLink(b, Http).value == FirstOrNull(GetLinks(b, Http).value)
  {
  }

  /** The local case of `getLink` is the placeholder ("path", "local"),
      whatever the local source would have answered. */
  lemma LocalGetLinkIsPlaceholder(b: Backends)
    requires !b.downloaded
    ensures GetLink(b, Local) == Success(Some(LocalPlaceholder))
  {
  }

  /** The local case of `getLink` equals the head of `getLinks` exactly when
      the local source's first link happens to be the placeholder. */
  lemma LocalGetLinkMatchesGetLinksIff(b: Backends)
    requires !b.downloaded
    ensures GetLink(b, Local).value == FirstOrNull(GetLinks(b, Local).value) <==>
      b.local.Success? && |b.local.value| > 0 && b.local.value[0] == LocalPlaceholder
  {
  }

  /** Hence the local case of `getLink` need not be the head of `getLinks`:
      a local source emitting one real link is a witness. */
  lemma LocalGetLinkMayDifferFromGetLinks()
    ensures
      var b := Backends(false, None, [], Success([Link("file:///a/b.mkv", LocalTag)]));
      GetLink(b, Local).value != FirstOrNull(GetLinks(b, Local).value)
  {
  }

  /** Wrapping a nullable link in a list and taking `firstOrNull` back is the
      identity, and so is the other way round on lists of length at most one. */
  lemma ListOfRoundTrip<T>(o: Option<T>, s: seq<T>)
    ensures FirstOrNull(ListOf(o)) == o
    ensures |s| <= 1 ==> ListOf(FirstOrNull(s)) == s
  {
  }
}
