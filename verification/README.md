# EpisodeLoader backend selection, in Dafny

This project models the watcher's `EpisodeLoader` from aniyomi. For one
episode, the loader decides which backend supplies the playable `Link`s:

- the already-downloaded file;
- an `AnimeHttpSource`, which is remote;
- the `LocalAnimeSource`.

It then shapes that backend's answer. `getLinks` returns a list of links.
`getLink` returns a single nullable link. Unless the episode is downloaded,
both throw for a source they do not support.

The model is a pure, sequential decision function:

- The download manager's answers become fields of a `Backends` record. So do
  the sources' fetches and the uri's string form. The download flag is a
  boolean and the remote list always has a value. The downloaded file's uri
  (`downloadUri`) and the local source's list (`local`) can each be a value or a
  failure.
- The source handed to the loader is a closed variant, `SourceKind`, with the
  cases `Http`, `Local` and `Other`.
- Thrown exceptions become the `Failure` case of `Result`. Kotlin's nullable
  values become `Option`.
- Kotlin's subject-less `when` is modelled once, as `Dispatch.When`: the
  conditions are tried from top to bottom. `EpisodeLoader.Route` uses it to
  choose the branch that both `getLinks` and `getLink` take.

Files:

- `wrappers.dfy`: `Option` and `Result`.
- `dispatch.dfy`: the `when` expression.
- `episode_loader.dfy`: the data model and the operations.
- `episode_loader_properties.dfy`: the properties, one lemma each.

## Model

| member | source | states |
|---|---|---|
| Dispatch.When | app/src/main/java/eu/kanade/tachiyomi/ui/watcher/EpisodeLoader.kt:56-61 | the value of a `when` is the value of the first branch whose condition holds, with no earlier condition holding; if no condition holds, it is the `else` value |
| EpisodeLoader.Route | app/src/main/java/eu/kanade/tachiyomi/ui/watcher/EpisodeLoader.kt:26-44 | the download path is taken exactly when the episode is downloaded; otherwise the remote path is taken exactly for an http source, the local path exactly for the local source, and no backend for any other source |
| EpisodeLoader.First | app/src/main/java/eu/kanade/tachiyomi/ui/watcher/EpisodeLoader.kt:58 | `first()` succeeds exactly on a non-empty list, with its head; on an empty list it throws `NoSuchElementException` |
| EpisodeLoader.ListOf | app/src/main/java/eu/kanade/tachiyomi/ui/watcher/EpisodeLoader.kt:29-33 | a nullable link becomes a list of length at most one, holding the link exactly when it is non-null |
| EpisodeLoader.Downloaded | app/src/main/java/eu/kanade/tachiyomi/ui/watcher/EpisodeLoader.kt:91-104 | the download path gives a link exactly when building the video yields a uri; that link carries the uri's string and the tag "download" |
| EpisodeLoader.LocalLink | app/src/main/java/eu/kanade/tachiyomi/ui/watcher/EpisodeLoader.kt:111-124 | the local path gives a link exactly when the source emits a non-empty list, and that link is the list's first; a failure or an empty list gives null |
| EpisodeLoader.GetLinks | app/src/main/java/eu/kanade/tachiyomi/ui/watcher/EpisodeLoader.kt:23-46 | `getLinks` fails exactly when no backend is chosen, with "source not supported"; outside the remote path, its list has at most one element |
| EpisodeLoader.GetLink | app/src/main/java/eu/kanade/tachiyomi/ui/watcher/EpisodeLoader.kt:53-62 | `getLink` fails exactly for an unsupported source when the episode is not downloaded, with "no worky", or on the remote path with an empty list, with `NoSuchElementException` |
| EpisodeLoader.IsDownloaded | app/src/main/java/eu/kanade/tachiyomi/ui/watcher/EpisodeLoader.kt:48-51 | passes through the download manager's flag, which holds exactly when both operations take the download path for every source; the consequences for the answers are stated by `IsDownloadedSelectsDownloadPath`, the next row |
| EpisodeLoaderProperties.IsDownloadedSelectsDownloadPath | app/src/main/java/eu/kanade/tachiyomi/ui/watcher/EpisodeLoader.kt:48-51 | `isDownloaded` holds exactly when both operations answer from the download path, whatever the source |
| EpisodeLoaderProperties.DownloadedTakesPriority | app/src/main/java/eu/kanade/tachiyomi/ui/watcher/EpisodeLoader.kt:25-34 | for a downloaded episode, with the backend outcomes held fixed, each operation's answer does not depend on the source variant and is never an error, not even for an unsupported source |
| EpisodeLoaderProperties.DownloadedLinks | app/src/main/java/eu/kanade/tachiyomi/ui/watcher/EpisodeLoader.kt:27-34 | for a downloaded episode, `getLinks` is `[Link(uri, "download")]`, or `[]` when the download path fails; it never falls through to another backend |
| EpisodeLoaderProperties.OnlyChosenBackendConsulted | app/src/main/java/eu/kanade/tachiyomi/ui/watcher/EpisodeLoader.kt:26-45 | two worlds that agree on the download flag and on the chosen backend's outcome get the same answers, so one backend is consulted and answers are never merged |
| EpisodeLoaderProperties.RemotePassThrough | app/src/main/java/eu/kanade/tachiyomi/ui/watcher/EpisodeLoader.kt:35 | for an episode that is not downloaded and an http source, `getLinks` is exactly the remote list: same elements, same order |
| EpisodeLoaderProperties.LocalAtMostOne | app/src/main/java/eu/kanade/tachiyomi/ui/watcher/EpisodeLoader.kt:36-42 | for an episode that is not downloaded and the local source, `getLinks` is `[first emitted link]`, or `[]` when the source fails or emits nothing |
| EpisodeLoaderProperties.UnsupportedSourceFails | app/src/main/java/eu/kanade/tachiyomi/ui/watcher/EpisodeLoader.kt:44-60 | `getLinks` fails if and only if the episode is not downloaded and the source is neither http nor local; in that case `getLink` fails too, each with its own message |
| EpisodeLoaderProperties.GetLinkAgreesWhenDownloaded | app/src/main/java/eu/kanade/tachiyomi/ui/watcher/EpisodeLoader.kt:28-33 | for a downloaded episode, `getLink` is the single element of `getLinks` when that list is non-empty, and null when it is empty |
| EpisodeLoaderProperties.RemoteGetLinkIsHead | app/src/main/java/eu/kanade/tachiyomi/ui/watcher/EpisodeLoader.kt:58 | for an episode that is not downloaded and an http source, `getLink` is the head of the remote list, which is also the head of `getLinks`; an empty list is an error, not null |
| EpisodeLoaderProperties.LocalGetLinkIsPlaceholder | app/src/main/java/eu/kanade/tachiyomi/ui/watcher/EpisodeLoader.kt:59 | for an episode that is not downloaded and the local source, `getLink` is always `Link("path", "local")`, whatever the source would answer |
| EpisodeLoaderProperties.LocalGetLinkMatchesGetLinksIff | app/src/main/java/eu/kanade/tachiyomi/ui/watcher/EpisodeLoader.kt:36-59 | when the episode is not downloaded, `getLink` on the local source equals the head of `getLinks` if and only if the source succeeds and its first link is the placeholder `Link("path", "local")` |
| EpisodeLoaderProperties.LocalGetLinkMayDifferFromGetLinks | app/src/main/java/eu/kanade/tachiyomi/ui/watcher/EpisodeLoader.kt:36-59 | a local source that emits one real link shows that `getLink` and the head of `getLinks` can disagree for the same inputs |
| EpisodeLoaderProperties.ListOfRoundTrip | app/src/main/java/eu/kanade/tachiyomi/ui/watcher/EpisodeLoader.kt:29-33 | wrapping a nullable link in a list and taking `firstOrNull` gives the link back; the reverse holds for lists of at most one element |

## Left out

- The `runBlocking` / `suspendCoroutine` / `launchIO` bridge (EpisodeLoader.kt:66-78, 92-100, 112-120) is left out because it is concurrency, not a value. Each backend is given as its outcome.
- In the code as written, an exception thrown inside `launchIO` is never passed to the continuation, so it cannot reach the surrounding `catch`. It escapes `launchIO` uncaught, and `runBlocking` (EpisodeLoader.kt:92, 112) blocks forever because the continuation is never resumed. The model follows the evident intent instead: a failure of the download path or the local path becomes null, or `[]` in `getLinks`.
- The remote failure path (EpisodeLoader.kt:73-74) is left out. It rethrows on the UI context without resuming the continuation, which is a hang or a crash, not a value. The remote backend is modelled as always yielding a list. As a result, `notDownloaded` (EpisodeLoader.kt:64-83) is the identity on that list, and no separate member models it.
- `AnimeDownloadManager.isEpisodeDownloaded` and `buildVideo`, `getEpisodeLink`, `fetchEpisodeLink` and `Uri.toString` are calls into code that is not part of this model. They are the fields of `Backends`.
- The Injekt dependency lookups (EpisodeLoader.kt:24, 49, 54) are left out as dependency-injection plumbing.
- The episode and the anime are left out, because the loader only forwards them to the backends.
- `AnimelibComfortableGridHolder.kt` is left out: it is Android view binding with no decision logic.
