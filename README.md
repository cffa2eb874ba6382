# School memory viewer: data-access and credential layer

This project models the data-access and credential layer of a read-only web viewer. The viewer shows a school's "memories", student roster and developer profiles. It keeps them as folders of `data.json` documents and images inside one GitHub repository, and reads them through the GitHub REST contents API. Everything modelled lives in `js/app.js`:

- **Secret code** (`secret.dfy`, module `Secret`). The user types `username:repo:token`. `parseSecretCode` splits it on `':'` with JavaScript's `split` and accepts it only when there are exactly three pieces. Empty pieces are accepted.
- **Saved credentials** (`viewer.dfy`, module `Viewer`). After a successful sign-in, one `localStorage` slot holds `{username, repo, token, timestamp}`. At start-up the saved credentials are reused only while the timestamp is truthy and `now - timestamp < 24 h`. The class `SchoolMemoryViewer` models `checkAuthentication`, `authenticate` and `initializeApp` over that slot, with the clock as a parameter.
- **Client state** (`client.dfy`, module `Client`). The class `GitHubApi` holds the coordinates that `init` sets. Its `GetCollection` method is the loop shared by `getMemories`, `getStudents` and `getDevelopers`. Those three differ only in the folder they read: `추억`, `학생목록` or `개발자`.
- **Queries** (`api.dfy`, module `Api`). These are the URL templates, `getRepoInfo`, `getRepoSize`, `getFileContent`, `getFolderContents` and `getBackgroundMusicUrl`. They are written over a `Config` value, which is a snapshot of the client's fields. Every query except `getRepoInfo` turns every failure into a fallback value: `null`, `[]` or 0.
- **Loader specification** (`collections.dfy`, module `Collections`). The loop body handles one listing entry (`LoadEntry`), and `Gather` is the result of the whole loop. Lemmas state that the result is the order-preserving image of the listing's loadable folder entries.
- **JavaScript text behaviour** (`js_text.dfy`, module `JsText`). This covers how a template literal renders a `null` field, and `String.prototype.trim` with the ECMAScript whitespace set.
- **The browser and the network** (`platform.dfy`, module `Platform`) are oracles. The `Host` value holds `fetch` for each endpoint, keyed by URL and `Authorization` header, plus `atob` and `JSON.parse`. The model only says what the code does with each answer they can give.

Some behaviour of the code is easy to mistake for stricter behaviour, and the model keeps the code's:

- Empty secret segments are accepted, as in `"a::b"`.
- A failed folder listing of any kind gives an empty collection instead of an error.
- `imagePath` is rewritten even when the document has none, which gives a URL ending in `/main/undefined`.
- The repository size is `Math.round(size / 1024)`, not a floor.

## Model

| member | source | states |
|---|---|---|
| Secret.SplitLength | js/app.js:113 | `split(':')` gives one piece more than the number of colons |
| Secret.SplitPiecesSeparatorFree | js/app.js:113 | no piece of the split contains a colon |
| Secret.JoinSplit | js/app.js:113 | joining the pieces with colons gives back the input |
| Secret.SplitJoin | js/app.js:113 | splitting a colon-join of colon-free pieces gives back those pieces |
| Secret.ParseRejectsIff | js/app.js:111-123 | `parseSecretCode` returns null exactly when the secret does not hold exactly two colons |
| Secret.ParseRoundTrip | js/app.js:111-123 | an accepted secret equals `username + ":" + repo + ":" + token`, and no part contains a colon |
| Secret.FormatParse | js/app.js:111-123 | any colon-free coordinates, empty ones included, are recovered from the secret they form |
| Viewer.Resume | js/app.js:60-74 | saved credentials are used exactly when the slot parses, the timestamp is truthy and `now - timestamp < 86400000`; they are passed on unchanged |
| Viewer.StoreThenResume | js/app.js:97-102 | credentials stored at `t` come back unchanged at `t'` exactly when `t != 0` and `t' - t < 24 h`; otherwise the sign-in screen is shown |
| Viewer.ExpiryIsFinal | js/app.js:65 | credentials that are stale at one time are stale at every later time |
| Viewer.SchoolMemoryViewer.constructor | js/app.js:3-11 | a new viewer owns a fresh client and runs the start-up check: without fresh saved credentials it shows the sign-in screen with the client unconfigured; with them the client holds the saved coordinates, and the viewer is authenticated on the main screen exactly when the repository can be read |
| Viewer.SchoolMemoryViewer.InitializeApp | js/app.js:125-137 | the client gets the coordinates; the viewer becomes authenticated on the main screen exactly when the repository metadata can be read, and is otherwise unchanged |
| Viewer.SchoolMemoryViewer.CheckAuthentication | js/app.js:60-74 | fresh saved credentials configure the client and start the app; otherwise the sign-in screen is shown; the slot is never written |
| Viewer.SchoolMemoryViewer.Authenticate | js/app.js:76-109 | an empty secret changes nothing; a malformed one shows the sign-in screen; a well-formed one configures the client, and the slot is overwritten with the credentials and the time exactly when the repository can be read |
| Client.GitHubApi.constructor | js/app.js:373-378 | a new client has null coordinates and the public API base URL |
| Client.GitHubApi.Init | js/app.js:380-392 | the coordinates are stored whatever happens, and the result is the repository metadata or the error |
| Client.GitHubApi.GetCollection | js/app.js:465-492 | the loop returns exactly the loader specification of the collection's folder, with at most one record per folder entry |
| Collections.Folder | js/app.js:465-550 | each collection reads one non-empty, single-segment folder |
| Collections.FoldersDistinct | js/app.js:465-550 | the three loaders read three different folders |
| Collections.Rewrite | js/app.js:476-479 | every parsed member is kept, and `imagePath` is always set to the raw URL of the original value, which is `undefined` when absent |
| Collections.LoadEntry | js/app.js:470-485 | an entry yields a record exactly when it is a folder whose data.json is readable, not empty and parses to an object, and the record is that document rewritten |
| Collections.LoadCollection | js/app.js:465-492 | a listing that fails for any reason, 404 or otherwise, gives no records |
| Collections.GatherBound | js/app.js:470-487 | the loader yields no more records than there are folder entries |
| Collections.GatherIgnoresNonDirs | js/app.js:471 | entries that are not folders have no effect on the result |
| Collections.GatherConcat | js/app.js:470-487 | loading a listing in two parts gives the first part's records followed by the second's |
| Collections.GatherAround | js/app.js:470-487 | one entry's failure affects only its own place in the result, not its siblings |
| Collections.GatherIsOrderedImage | js/app.js:470-487 | the records are exactly the loadable entries' records, in listing order, each from a distinct entry |
| Collections.GatherImagePaths | js/app.js:472-479 | the k-th record is the rewritten document of the folder entry it comes from, and its `imagePath` is the raw asset URL of that document's `imagePath` |
| Collections.MiddleFailureSkipped | js/app.js:473-482 | with three folders whose middle document is unusable, the other two records come back in order |
| Api.ContentsUrlInjective | js/app.js:428 | distinct paths are fetched from distinct contents URLs |
| Api.RawUrlInjective | js/app.js:478 | distinct image paths resolve to distinct asset URLs |
| Api.RawUrlShape | js/app.js:478 | the asset URL is `https://raw.githubusercontent.com/` + owner + `/` + repo + `/main/` + path |
| Api.RepoInfo | js/app.js:394-403 | the metadata is available exactly when the metadata request answers ok, and it is the response's size; otherwise it throws |
| Api.RoundMb | js/app.js:408 | `Math.round(size / 1024)` is within half a unit of `size / 1024`, with halves rounded up, and is not negative for a size that is not negative |
| Api.RoundMbUnique | js/app.js:408 | that rounding is the only integer with this property |
| Api.RepoSize | js/app.js:405-413 | the rounded size when the metadata call succeeds, and 0 on any failure |
| Api.FileContent | js/app.js:426-444 | the content is present exactly when the request answers ok and `atob` accepts the body; a 404, any other status or a failed request gives null |
| Api.FolderContents | js/app.js:446-463 | the listing when the request answers ok, and `[]` on a 404, any other status or a failed request |
| Api.BackgroundMusicUrl | js/app.js:552-563 | a URL is returned exactly when music/background.txt is readable and not empty, and it is the file's content trimmed |
| Api.MusicPlaysIff | js/app.js:320-326 | music is set up exactly when the file is readable and holds a character other than whitespace, and then with the trimmed content |
| JsText.TrimStart | js/app.js:556 | removes exactly the leading whitespace, returning a suffix that does not start with whitespace |
| JsText.TrimEnd | js/app.js:556 | removes exactly the trailing whitespace, returning a prefix that does not end with whitespace |
| JsText.TrimIsSlice | js/app.js:556 | `trim` returns a slice of the input with only whitespace cut off and no whitespace at either end |
| JsText.TrimOfPadded | js/app.js:556 | whitespace padding around a string with no whitespace at its ends is exactly what `trim` removes |
| JsText.TrimIdempotent | js/app.js:556 | trimming twice is trimming once |
| JsText.TrimEmptyIff | js/app.js:556 | `trim` gives `""` exactly when the input is all whitespace |

## Left out

- DOM rendering and UI state are not modelled: `showScreen` is reduced to the `screen` field, and `switchTab`, the `load*` render methods, `escapeHtml`, `formatDate`, `toggleMusic`, the `currentTab` and `isMusicPlaying` fields and the audio element are left out. They are DOM, `Intl` and audio work.
- `loadAllData` and `updateStorageInfo` are not modelled as steps of `InitializeApp`. They catch every error, so they cannot change whether sign-in succeeds, and what they do is render.
- The sorting of records by date or name in the render methods is not modelled. It depends on `Date` string parsing and `localeCompare` collation.
- js/ui.js, js/main.js, js/memories.js, js/students.js and js/developers.js are not part of this model. They hold event binding, toasts, shortcuts, and an older loader variant that is inconsistent with `getFileContent`.
- `fetch`, the request headers beyond `Authorization`, `response.json()`, `atob`, `JSON.parse`, `JSON.stringify` and `localStorage` are oracles or fields, not implementations. Base64 decoding and JSON parsing are not reimplemented.
- The `Promise.all` over the three loaders and async scheduling are not modelled. Each loader awaits sequentially and is modelled as a plain loop.
- Api.RepoInfo: the metadata oracle answers with the numeric `size`. A body without a numeric size, for which JavaScript computes `NaN` instead of 0, is not modelled.
- Api.FileContent: the file oracle answers with the `content` member. Asking for the content of a folder, where `content` is `undefined`, is not modelled separately; it counts as content `atob` may reject.
- Collections.LoadEntry: `JSON.parse` is taken to give an object or `null`. Top-level numbers, strings, booleans and arrays, whose spread copies indexed members, are not modelled.
- Viewer.Resume: a saved slot whose `username`, `repo` or `token` is missing, which the app never writes, is not modelled. The slot text is taken to survive `JSON.stringify` and `JSON.parse` unchanged. A missing timestamp is `None` and is rejected, as in the code. Timestamps that are not numbers are not modelled: the code coerces them with `-`, so a numeric string could be accepted, but the app only ever writes numbers.
- Viewer.SchoolMemoryViewer.CheckAuthentication: the promise from `initializeApp` is not awaited there, so its effects are modelled as if they completed before the method returns.
