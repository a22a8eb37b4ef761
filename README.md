# Material collector: service worker, material list and install prompt

This project models three parts of the material-collector progressive web app.

- **The service worker** (`public/sw.js`). The fetch router sends each request to one of two strategies, cache-first or network-first. Install precaches a four-entry manifest. Activate deletes caches left by older versions. Small handlers cover the `SKIP_WAITING` message, push notifications and notification clicks.
- **The material list** of the home page (`src/app/page.tsx`). This covers add, toggle favourite, delete, edit, the search and category filter, and relative-time formatting.
- **The install-prompt state** of the `usePWA` hook (`src/hooks/use-pwa.ts`).

Modules:

- `Common`: Option, a generic `Filter` over sequences, and its lemmas (membership, order-preserving subsequence, composition, distinctness).
- `Fetch`: requests, responses, the ok-status test (200–299, section 2.2.3 of the WHATWG Fetch Standard), the responses `Cache.put` rejects, and the outcome of one network fetch.
- `Caches`: CacheStorage as values. Cache names are kept in creation order beside a map from name to cache. `MatchAll` is `caches.match`, which searches every cache in that order and returns the first hit (section 5.5.1 of the W3C Service Workers specification).
- `ServiceWorker`: the router `RouteOf`, the activate name filter, the atomic `addAll` batch, and class `Worker`. The class holds the cache storage and updates it in place through `Open`, `Put`, `Delete`, `CacheFirst`, `NetworkFirst`, `HandleFetch`, `Install` and `Activate`.
- `WorkerEvents`: the message, push and notificationclick handlers. Each is a function from the event data to the browser calls it makes, returned as effects.
- `Materials`: the material record, the category table, and the pure list transforms behind the page's handlers. Also `trim`, the filter and `formatTime`.
- `Home`: class `Page`, holding the page's state fields, with one method per handler.
- `Pwa`: class `InstallPrompt`, with the fields `isInstalled`, `canInstall` and `deferredPrompt` and its three transitions.
- `Scenarios`: clients that use only the contracts above. They show an install online, then offline icon and navigation requests, an API response reused offline, and an upgrade cleanup.

Every network fetch is an input, a `FetchOutcome` (a response, or a transport failure), not a call. The current time is an input too.

Points in the code that are easy to misread, and how the model treats them:

- Both strategies look up with `caches.match`, which searches every cache. A cache-first hit can come from the dynamic cache. Because the static cache is created first, an install-time `/` shadows a fresher `/` stored in the dynamic cache (`StaticShadowsDynamic`).
- Install opens the static cache before `addAll`. A failed install therefore leaves the static cache behind (empty if it did not exist before).
- The cache-first offline answer `new Response('离线状态', {status: 503})` has no explicit headers. Extracting a string body adds `Content-Type: text/plain;charset=UTF-8` (the Fetch Standard's body extraction), so the model carries that header.
- `put` (public/sw.js:99, 115) is not awaited. A 206 response, or one whose Vary header lists `*`, is returned to the page, but `put` rejects it and nothing is stored. The cache was still opened, and so exists afterwards.
- The `SKIP_WAITING` handler calls `skipWaiting`, and so does install, unconditionally.
- Nothing orders `clients.claim()` after the activate cleanup. The model claims no such order.
- `handleEdit` does not check whether the edited title is blank. Only the button that calls it is disabled then.

## Model

| member | source | states |
|---|---|---|
| ServiceWorker.RouteOf | public/sw.js:52-86 | a non-GET request is passed through; a GET goes cache-first exactly when its path does not start with `/api/` and its destination is style, script, image or font, and network-first otherwise |
| ServiceWorker.RouteIgnoresMode | public/sw.js:78-85 | the navigation branch and the final branch choose the same strategy, so a request's mode never changes its route |
| Caches.MatchAll | public/sw.js:90-93 | `caches.match` finds an entry exactly when some existing cache holds the key |
| Caches.MatchSound | public/sw.js:120-123 | a found response is the one some cache stores under that key |
| Caches.MatchIsFirstHit | public/sw.js:127-130 | the earliest cache in creation order that holds the key is the one that answers |
| Caches.MatchFrame | public/sw.js:90 | two storages that agree on a key in every cache answer `match` for it alike |
| Caches.MatchAfterPut | public/sw.js:95-100 | after `put` the key is found, and when no cache held it before, the stored response is what `match` returns |
| Caches.MatchOtherKeyAfterPut | public/sw.js:113-116 | `put` under one key changes no lookup of any other key |
| Caches.MatchAppendMissing | public/sw.js:114 | creating a cache that lacks the key does not change the lookup |
| Caches.Opened | public/sw.js:19 | `caches.open` keeps the existing names in order, appends a new name last, and keeps names distinct |
| Caches.PutEntry | public/sw.js:98-99 | `put` stores the response under the key in the named cache, keeps every other entry of that cache with its value, and leaves all other caches as they were |
| Caches.Stored | public/sw.js:98-99 | opening then `put` writes the entry exactly when `put` accepts the response; otherwise only the opened (possibly new, empty) cache is added |
| Fetch.SplitCommas | public/sw.js:99 | a Vary value splits into at least one element, none containing a comma; a value without commas is a single element |
| Fetch.SplitCommasCount | public/sw.js:99 | a value with `n` commas splits into exactly `n + 1` elements |
| Fetch.JoinCons | public/sw.js:99 | joining an element in front of others puts one comma between it and the rest |
| Fetch.JoinExtendFirst | public/sw.js:99 | lengthening the first element lengthens the joined value at its front by the same text |
| Fetch.SplitCommasJoin | public/sw.js:99 | splitting loses nothing: joining the elements back with commas gives the original value |
| Fetch.StripOws | public/sw.js:99 | the stripped element neither starts nor ends with a space or tab, and is no longer than the input |
| Fetch.StripOwsStartRemoves | public/sw.js:99 | stripping the start keeps a suffix of the input and removes only spaces and tabs |
| Fetch.StripOwsEndRemoves | public/sw.js:99 | stripping the end removes only spaces and tabs |
| Fetch.StripOwsSlice | public/sw.js:99 | the stripped element is a contiguous slice of the input, and everything cut off before and after it is spaces and tabs |
| Fetch.StarIsOneElement | public/sw.js:115 | the Vary value `*` is the single element `*`, unchanged by stripping |
| Fetch.PutAcceptsWithoutVary | public/sw.js:99 | without a Vary header `put` rejects exactly a status 206 response |
| Fetch.VaryStarRejects | public/sw.js:115 | a `Vary: *` header makes `put` reject the response, whatever its status |
| ServiceWorker.Worker.Open | public/sw.js:19 | opening a cache creates it empty if it is missing and changes nothing else |
| ServiceWorker.Worker.Put | public/sw.js:114-115 | the cache is opened, the entry is stored exactly when `put` accepts the response (`stored`), and names and caches stay coherent |
| ServiceWorker.Worker.Delete | public/sw.js:43 | `caches.delete` reports whether the cache existed, and removes exactly that name and its contents, keeping the order of the rest |
| ServiceWorker.Worker.CacheFirst | public/sw.js:89-107 | a hit is returned with no fetch and no write; on a miss an ok response is returned and put into the static cache (stored unless `put` rejects it), a non-ok one is returned unstored, and a transport failure yields the 503 `离线状态` with nothing stored |
| ServiceWorker.Worker.NetworkFirst | public/sw.js:110-138 | a received response is returned, and put into the dynamic cache only when ok (stored unless `put` rejects it); only a transport failure falls back, first to the cached entry, then for navigations to the cached `/`, then to the 503 with its explicit content type, writing nothing |
| ServiceWorker.Worker.HandleFetch | public/sw.js:52-86 | no response and no change exactly for a pass-through request; for each route, the response and the new cache state are those of the chosen strategy: the cache hit, the fetched response with its write to the static or dynamic cache, or the offline fallback chain with no write |
| ServiceWorker.FetchedBatch | public/sw.js:21 | the fetched batch exists exactly when every entry arrives with an ok status that `put` accepts, and then maps exactly the listed keys to their fetched responses |
| ServiceWorker.AddAllBatch | public/sw.js:21 | `addAll` succeeds exactly when no request is listed twice and every entry arrives with an ok status that `put` accepts (not 206, not varying on `*`); it then stores exactly the listed keys, each with its fetched response |
| ServiceWorker.ManifestDistinct | public/sw.js:8-13 | the install manifest lists no request twice, so `addAll` cannot reject it for a duplicate |
| ServiceWorker.Worker.AddAll | public/sw.js:21 | success exactly when no key is listed twice and every entry is accepted; then the batch is stored in the named cache all at once, and on failure nothing changes |
| ServiceWorker.Worker.Install | public/sw.js:8-25 | the static cache is opened; install succeeds exactly when every manifest entry is accepted, and then the static cache holds all four entries, otherwise none is added |
| ServiceWorker.InstalledAssetsMatch | public/sw.js:8-13 | after a successful install every manifest entry, `/` included, is found by `match` |
| ServiceWorker.StaticShadowsDynamic | public/sw.js:125-130 | once the static cache holds `/`, a fresher `/` stored in the dynamic cache is not what the offline navigation fallback returns |
| ServiceWorker.StaleNames | public/sw.js:33-40 | the names activate deletes are exactly the existing names other than the three current ones |
| ServiceWorker.Worker.Activate | public/sw.js:28-49 | activate deletes exactly the stale names; afterwards only current names remain, in their order, and their contents are unchanged |
| WorkerEvents.OnMessage | public/sw.js:141-145 | `skipWaiting` is called exactly for a message of type `SKIP_WAITING`, and nothing else happens |
| WorkerEvents.OrDefault | public/sw.js:160 | JavaScript `value \|\| fallback` on a string: an absent or empty value gives the fallback |
| WorkerEvents.OnPush | public/sw.js:156-181 | without a payload nothing is shown; otherwise one notification with the payload's title and body or their defaults, the arrival time, and exactly the actions `view` and `close` |
| WorkerEvents.OnNotificationClick | public/sw.js:184-189 | the notification is always closed; the effects are exactly closing it and opening a window on `/` for the `view` action, and only closing it otherwise |
| Scenarios.OnlineManifestAccepted | public/sw.js:21 | on a network answering 200 everywhere, `addAll` accepts the whole manifest |
| Scenarios.InstalledOnline | public/sw.js:16-25 | after installing on such a network, `match` finds the icon and `/`, and not an uncached page |
| Scenarios.OfflineIcon | public/sw.js:89-93 | offline after install, an icon request is answered from the cache without a fetch |
| Scenarios.OfflineNavigation | public/sw.js:118-137 | offline after install, a navigation to an uncached page gets the cached `/`, and a non-navigation request gets the 503 |
| Scenarios.ApiOnlineThenOffline | public/sw.js:110-123 | an API response received with status 200 is served again when the network later fails; a 500 response is passed through and not stored |
| Scenarios.UpgradeCleanup | public/sw.js:31-45 | activate after an upgrade deletes the old version's cache and keeps the current ones in order |
| Materials.FindCategory | src/app/page.tsx:151 | `find` returns the first category with the id, and none exactly when no category has it |
| Materials.CategoryIdsDistinct | src/app/page.tsx:20-27 | no two categories in the table share an id |
| Materials.CategoryColor | src/app/page.tsx:151-160 | the colour of the category with that id, or `#888` for an unknown category |
| Materials.TrimStartSpec | src/app/page.tsx:150 | trimming the start removes exactly the leading white space |
| Materials.TrimEndSpec | src/app/page.tsx:150 | trimming the end removes a white-space suffix, and the result does not end with white space |
| Materials.TrimEmptyIffBlank | src/app/page.tsx:150 | `trim()` is empty exactly when every character is white space |
| Materials.Added | src/app/page.tsx:149-162 | a blank title leaves the list unchanged; otherwise exactly one record is put in front, with the entered title, content and category, no tags, not favourite, the category's colour, and the old list following in order |
| Materials.Toggled | src/app/page.tsx:170-172 | the favourite flag flips exactly on the records with the id; every other field and record is unchanged |
| Materials.ToggleTwice | src/app/page.tsx:170-172 | toggling the same id twice restores the list |
| Materials.DeletedSpec | src/app/page.tsx:181 | the result holds exactly the records without the id, each as many times as in the list, as a subsequence of the list; an absent id changes nothing |
| Materials.Edited | src/app/page.tsx:189-193 | only title and content change, and only on the records with the selected id |
| Materials.Lower | src/app/page.tsx:212-213 | ASCII upper-case letters become lower case and every other character is kept |
| Materials.FilteredSpec | src/app/page.tsx:210-216 | a record is shown exactly when the query is empty or found case-insensitively in its title or content, and the category matches when one is selected; each shown record appears as many times as in the list; the result is a subsequence of the list, and with no query and no category it is the whole list |
| Materials.TitleHitIsShown | src/app/page.tsx:211-212 | a query occurring verbatim in a title passes the model's ASCII case-insensitive search |
| Materials.FormatTime | src/app/page.tsx:103-114 | minutes under 60, else hours under 24, else days under 7, else the date; each count is the floor of the elapsed time in that unit |
| Home.Page.FilteredMaterials | src/app/page.tsx:210-216 | the shown records are a subsequence of the page's list holding each record that matches the query and the selected category as many times as the list does, and no other |
| Home.Page.constructor | src/app/page.tsx:129-141 | the page starts with the loaded list, an empty form, no query, no category and nothing selected |
| Home.Page.HandleAdd | src/app/page.tsx:149-165 | the list becomes `Added`; a non-blank title also resets and closes the form, and a blank one changes nothing |
| Home.Page.ToggleFavorite | src/app/page.tsx:168-177 | the list becomes `Toggled`, and the open record flips too when it has the id |
| Home.Page.HandleDelete | src/app/page.tsx:180-184 | the list becomes `Deleted`, and the detail view and the confirmation close |
| Home.Page.HandleEdit | src/app/page.tsx:187-200 | nothing changes without a selection; otherwise the list becomes `Edited`, the selected record takes the new title and content, and editing ends |
| Home.Page.OpenDetail | src/app/page.tsx:203-207 | the record is selected, its title and content fill the edit form, and editing is off |
| Pwa.InstallPrompt.constructor | src/hooks/use-pwa.ts:23-25 | `isInstalled` is what the probe reports, and no prompt is held |
| Pwa.InstallPrompt.HandleBeforeInstall | src/hooks/use-pwa.ts:29-34 | the prompt is held back and installation is offered; `isInstalled` is unchanged |
| Pwa.InstallPrompt.HandleAppInstalled | src/hooks/use-pwa.ts:37-41 | the app is installed, and the prompt and the offer are gone |
| Pwa.InstallPrompt.Install | src/hooks/use-pwa.ts:52-62 | `prompt()` is called exactly when a prompt is held, and without one nothing changes; the dialog is shown only for an event never shown before, and a shown-before event replays its first answer; an accepted answer withdraws the prompt and the offer, a dismissed one keeps both with the answer recorded; `isInstalled` is kept |
| Pwa.Answer | src/hooks/use-pwa.ts:56 | `userChoice` yields the user's choice for a fresh event and the recorded first answer for an event already shown |
| Pwa.DismissThenRetry | src/hooks/use-pwa.ts:52-62 | after a dismissed dialog a second `install` shows nothing, even if the user would now accept, and installation stays on offer |

## Left out

- Console logging and the `sync` handler (public/sw.js:148-153): they have no effect on state.
- `self.skipWaiting()` in install (public/sw.js:24) and `self.clients.claim()` in activate (public/sw.js:48): these are browser calls with no effect on the cache storage.
- Timing of un-awaited work: `cache.put` is not awaited (public/sw.js:99, 115). The model applies the write before the response is returned.
- Failures of the cache storage itself, such as a failed `open`, `put` or `delete`, or exceeded quota: each is modelled as succeeding.
- Cache-API request matching (Vary, URL normalisation, `ignoreSearch`): a request is matched by its URL, an abstract key. Only the `Vary: *` rejection of `put` and `addAll` is modelled.
- Fetch.SplitCommas: splits a Vary value on every comma, without the quoted-string handling of the Fetch Standard's header-value splitting. A Vary value holds tokens, so no quoted string is expected there.
- Interleaving: each event handler runs as one atomic step. In the source the strategies are async functions that can interleave at every `await` (public/sw.js:90, 96, 98, 112, 114, 120, 127). For example, two cache-first misses on one key can each `put`, and the later write wins. The model does not capture such interleavings.
- Response cloning and body streams: a response is a value, so `clone()` is the identity.
- Push payload parsing (`data.json()`, public/sw.js:158): the payload arrives parsed, with optional string title and body. A payload that is not JSON, or fields that are not strings, are not modelled.
- `Date.now()` ids and times are parameters. `toLocaleDateString` and the number-to-text rendering of `formatTime` are not modelled: the date bucket returns the creation time.
- Materials.Lower: models `toLowerCase` on ASCII letters only. Unicode case mapping has no counterpart here.
- Materials.TitleHitIsShown: holds for the ASCII search only. Under JavaScript's `toLowerCase`, a final capital sigma lowers by context: the title `ΟΔΟΣΑ` lowers to `οδοσα`, but the query `ΔΟΣ` lowers to `δος`, which `οδοσα` does not include, so the source hides that record although the query occurs verbatim in its title.
- Pwa.InstallPrompt.HandleBeforeInstall: does not model `e.preventDefault()` (src/hooks/use-pwa.ts:30). It only suppresses the browser's own install banner and changes no state of the hook.
- `loadInitialMaterials` and the localStorage effect (src/app/page.tsx:83-100, 144-146): they are persistence I/O. The page starts from a list given as a parameter.
- JSX rendering, the tab, banner and sheet toggles, and React's batching of state updates: each handler's setters are applied at once.
- `checkIsInstalled` (src/hooks/use-pwa.ts:15-20) and `deferredPrompt.prompt()`: these are browser calls. The probe's answer and the user's choice are inputs.
- src/app/layout.tsx is not part of this model.
