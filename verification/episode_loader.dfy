/** The backend selection of the watcher's `EpisodeLoader`: for one episode it
    decides whether the playable links come from the downloaded file, from an
    `AnimeHttpSource`, or from the `LocalAnimeSource`, and shapes that
    backend's answer into a list (`GetLinks`) or a single nullable link
    (`GetLink`).

    Every call into another component (the download manager, the source's
    network or file lookup, `Uri.toString`) is replaced by its outcome, held in
    a `Backends` value; the coroutine bridge around those calls is not part of
    this model. */
module EpisodeLoader {
  import opened Wrappers
  import opened Dispatch

  /** A playable link: its locator and a provenance tag ("download",
      "local", or a tag of the remote source's choosing). */
  datatype Link = Link(url: string, tag: string)

  /** The run-time class of the `AnimeSource` handed to the loader. */
  datatype SourceKind =
    | Http    // an `AnimeHttpSource`
    | Local   // the `LocalAnimeSource`
    | Other   // any other `AnimeSource`

  /** Exceptions that can leave the loader. */
  datatype Error =
    | IllegalState(message: string)  // thrown by Kotlin's `error(message)`
    | NoSuchElement                  // thrown by `List.first()` on an empty list

  /** What each backend would answer for the episode at hand. */
  datatype Backends = Backends(
    // `isEpisodeDownloaded(episode, anime, true)`
    downloaded: bool,
    // the string form of the downloaded video's uri; `None` when building the
    // video fails or its uri is null
    downloadUri: Option<string>,
    // the list `source.getEpisodeLink(...)` yields for an `AnimeHttpSource`
    remote: seq<Link>,
    // the list `source.fetchEpisodeLink(episode)` emits, or the exception it throws
    local: Result<seq<Link>, string>)

  /** The backend a call is served by; `NoBackend` is the `else` branch. */
  datatype Backend = DownloadPath | RemotePath | LocalPath | NoBackend

  const DownloadTag: string := "download"
  const LocalTag: string := "local"
  /** The placeholder link `getLink` answers for the local source. */
  const LocalPlaceholder: Link := Link("path", LocalTag)
  /** The messages of the two `error(...)` calls. */
  const GetLinksUnsupported: string := "source not supported"
  const GetLinkUnsupported: string := "no worky"

  /** The branch both `when` expressions of the loader take: the download
      check first, then an http source, then the local source, else nothing. */
  function Route(downloaded: bool, kind: SourceKind): (r: Backend)
    ensures r == DownloadPath <==> downloaded
    ensures r == RemotePath <==> !downloaded && kind == Http
    ensures r == LocalPath <==> !downloaded && kind == Local
    ensures r == NoBackend <==> !downloaded && kind == Other
  {
    var arms := [Arm(downloaded, DownloadPath), Arm(kind.Http?, RemotePath), Arm(kind.Local?, LocalPath)];
    assert downloaded ==> Selects(arms, 0);
    assert !downloaded && kind.Http? ==> Selects(arms, 1);
    assert !downloaded && kind.Local? ==> Selects(arms, 2);
    When(arms, NoBackend)
  }

  /** `isDownloaded`: a passthrough of the download manager's answer, which
      is exactly the condition that selects the download path for any source. */
  function IsDownloaded(b: Backends): (r: bool)
    ensures forall kind :: r <==> Route(b.downloaded, kind) == DownloadPath
  {
    b.downloaded
  }

  /** Kotlin's `List.first()`. */
  function First<T>(s: seq<T>): (r: Result<T, Error>)
    ensures r.Success? <==> |s| > 0
    ensures r.Success? ==> r.value == s[0]
    ensures r.Failure? ==> r.error == NoSuchElement
  {
    if |s| == 0 then Failure(NoSuchElement) else Success(s[0])
  }

  /** The head of a list, or null when it is empty: a specification helper
      that relates a list-valued answer to a single-link one. */
  function FirstOrNull<T>(s: seq<T>): (r: Option<T>)
    ensures r.Some? <==> |s| > 0
    ensures r.Some? ==> r.value == s[0]
  {
    First(s).ToOption()
  }

  /** `if (link != null) mutableListOf(link) else emptyList()`. */
  function ListOf<T>(link: Option<T>): (r: seq<T>)
    ensures |r| <= 1
    ensures |r| == 1 <==> link.Some?
    ensures link.Some? ==> r[0] == link.value
  {
    match link
    case None => []
    case Some(l) => [l]
  }

  /** `downloaded`: the downloaded file's uri tagged "download", or null when
      the download path fails. */
  function Downloaded(downloadUri: Option<string>): (r: Option<Link>)
    ensures r.Some? <==> downloadUri.Some?
    ensures r.Some? ==> r.value.url == downloadUri.value && r.value.tag == DownloadTag
  {
    match downloadUri
    case None => None
    case Some(uri) => Some(Link(uri, DownloadTag))
  }

  /** `local`: the first link the local source emits. Following the intended
      handling of the surrounding catch, a failure of the source and an empty
      list (on which `first()` throws) both give null. */
  function LocalLink(outcome: Result<seq<Link>, string>): (r: Option<Link>)
    ensures r.Some? <==> outcome.Success? && |outcome.value| > 0
    ensures r.Some? ==> r.value == outcome.value[0]
  {
    match outcome
    case Failure(_) => None
    case Success(links) => First(links).ToOption()
  }

  /** `getLinks`. The remote list is `notDownloaded`'s answer unchanged. */
  function GetLinks(b: Backends, kind: SourceKind): (r: Result<seq<Link>, Error>)
    ensures r.Failure? <==> Route(b.downloaded, kind) == NoBackend
    ensures r.Failure? ==> r.error == IllegalState(GetLinksUnsupported)
    ensures r.Success? && Route(b.downloaded, kind) != RemotePath ==> |r.value| <= 1
  {
    match Route(b.downloaded, kind)
    case DownloadPath => Success(ListOf(Downloaded(b.downloadUri)))
    case RemotePath => Success(b.remote)
    case LocalPath => Success(ListOf(LocalLink(b.local)))
    case NoBackend => Failure(IllegalState(GetLinksUnsupported))
  }

  /** `getLink`. The remote case calls `first()` outside any try, so an empty
      remote list is an error; the local case never asks the source. */
  function GetLink(b: Backends, kind: SourceKind): (r: Result<Option<Link>, Error>)
    ensures r.Failure? <==>
      Route(b.downloaded, kind) == NoBackend || (Route(b.downloaded, kind) == RemotePath && |b.remote| == 0)
    ensures r.Failure? && Route(b.downloaded, kind) == NoBackend ==> r.error == IllegalState(GetLinkUnsupported)
    ensures r.Failure? && Route(b.downloaded, kind) == RemotePath ==> r.error == NoSuchElement
  {
    match Route(b.downloaded, kind)
    case DownloadPath => Success(Downloaded(b.downloadUri))
    case RemotePath =>
      (match First(b.remote)
       case Success(l) => Success(Some(l))
       case Failure(e) => Failure(e))
    case LocalPath => Success(Some(LocalPlaceholder))
    case NoBackend => Failure(IllegalState(GetLinkUnsupported))
  }
}
