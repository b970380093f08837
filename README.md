# nano-weather-app, modelled in Dafny

nano-weather-app is a React front end with two serverless endpoints. A user searches
a city (or their own position). The OpenWeather client fetches the current weather.
The skyline panel asks an image model, behind `/api/generate-image`, for an isometric
diorama of the city. The roast panel asks a text model, behind `/api/generate-roast`,
for a JSON roast of the weather. A streak tracker in local storage counts daily
searches and unlocks achievements. Every finished search is saved to a Supabase table,
which a live activity feed and a recent-images gallery read back. A share card draws
the roast on a canvas.

This project models that core:

- **Dates, Streak**: the `useStreak` hook:
  - the `YYYY-MM-DD` date strings it stores and compares;
  - the date rule of a search;
  - the decay on mount;
  - the achievement checklist.
- **ImageService**: the prompt builder's classifiers (the city hour, the time-of-day
  bucket, the lighting, the weather icon, the night/day phrases), the prompt text and
  the client's reply checks.
- **Gallery, ActivityFeed, ShareCard**: the three components' logic:
  - the merged gallery list and its wrap-around viewer;
  - the "time ago" caption, the bounded newest-first feed and the live counter;
  - the greedy word wrap of the roast, the share texts and the busy latch.
- **Http, ImageEndpoint, RoastEndpoint**: the deployed endpoints. Each is a pure
  function from the environment, the request, `JSON.parse` and the model's answer to
  the reply. Each also has a method that writes that reply to a Node response object.
- **DevProxy**: the development server's copies of both endpoints, with lemmas on
  where they agree with the deployed ones and where they do not.
- **GithubService**: the star count read from the `rel="last"` link of a one-per-page
  stargazers list.
- **WeatherService**: city, coordinate and suggestion requests, and the mapping of the
  OpenWeather reply.
- **SupabaseSync, CityVisualization, WeatherController, WeatherRoastHook**: the hooks
  and the skyline panel, as classes whose fields are the React state cells and refs. An
  asynchronous operation is split at its `await` into a method that starts it and a
  method that finishes it with the settled outcome.

I/O is turned into parameters: the model, `fetch`, `JSON.parse`, the clock, the canvas
text measurement and the random numbers. The proofs state what the source promises
for every value of those parameters.

## Model

| member | source | states |
|---|---|---|
| Dates.IsoDate | src/hooks/useStreak.ts:24-26 | the date part of a timestamp is ten characters, dashes at positions 4 and 7 |
| Dates.IsoDateOrder | src/hooks/useStreak.ts:85-105 | the string comparisons of stored dates agree with calendar order, and string equality is date equality |
| Dates.DateStringOfTimestamp | src/hooks/useStreak.ts:24-26 | `split("T")[0]` of an ISO timestamp is its `YYYY-MM-DD` part |
| Streak.Load | src/hooks/useStreak.ts:28-44 | the stored record, or the default record when storage is empty or unreadable |
| Streak.StreakHook.constructor | src/hooks/useStreak.ts:55-56 | the hook starts from the loaded record with nothing surfaced |
| Streak.StreakHook.CheckOnMount | src/hooks/useStreak.ts:59-74 | the shown record is the stored one with a stale streak zeroed; storage is not written |
| Streak.StreakHook.RecordSearch | src/hooks/useStreak.ts:76-150 | the saved and shown record is the date rule followed by the checklist; the surfaced name is the first newly unlocked one |
| Streak.StreakHook.ClearNewAchievement | src/hooks/useStreak.ts:152-154 | only the surfaced achievement is cleared |
| Streak.SearchAlwaysCounted | src/hooks/useStreak.ts:82 | every search adds one to the total, whatever the date |
| Streak.SameDayKeepsStreak | src/hooks/useStreak.ts:85-87 | a second search on the same day leaves the streak, the longest streak and the date alone |
| Streak.NewDayStreakRule | src/hooks/useStreak.ts:88-105 | on a new day the streak grows by one after yesterday and restarts at one after a gap; the longest streak is the maximum |
| Streak.StreakWithinLongest | src/hooks/useStreak.ts:59-105 | `currentStreak <= longestStreak` is preserved by a search and by the mount check |
| Streak.DecayOnlyResetsStale | src/hooks/useStreak.ts:63-71 | the mount check zeroes the streak exactly when the last day is before yesterday and changes nothing else |
| Streak.CheckAllIsFresh | src/hooks/useStreak.ts:108-139 | the checklist appends exactly the reached, not yet held achievements, in table order |
| Streak.ChecklistDistinct | src/hooks/useStreak.ts:13-22 | the eight achievement ids are distinct |
| Streak.AchievementsOnlyGrow | src/hooks/useStreak.ts:108-139 | the held achievements before a search are a prefix of those after it |
| Streak.CheckAllKeepsDistinct | src/hooks/useStreak.ts:108-139 | the checklist never adds an id already held or twice |
| Streak.AchievementsStayDistinct | src/hooks/useStreak.ts:108-142 | no achievement id is ever held twice |
| Streak.CheckAllUnlocksReached | src/hooks/useStreak.ts:108-139 | after the checklist every reached achievement is held, and each added id was reached |
| Streak.UnlockedExactlyWhenReached | src/hooks/useStreak.ts:108-139 | after a search an achievement is held exactly when it was held before or its threshold is met |
| Streak.SurfacedIsFirstUnlocked | src/hooks/useStreak.ts:144-147 | the surfaced notification is the name of the first achievement this search unlocked |
| Streak.FirstSearchFromDefault | src/hooks/useStreak.ts:76-150 | the first search from the default record gives streak 1, longest 1, one search and the first achievement |
| ImageService.LocalHour | src/services/imageService.ts:61-68 | the browser-local hour of an instant is in 0..23 |
| ImageService.CityHourIsUtcPlusOffset | src/services/imageService.ts:61-68 | the hour read from the shifted date is the UTC hour plus the city's offset, whatever the browser's own offset |
| ImageService.TimeOfDayPartition | src/services/imageService.ts:67-76 | the five buckets partition the hours 0..23, and the "day" fallback is unreachable |
| ImageService.LightingClasses | src/services/imageService.ts:78-92 | sunrise and sunset share their lighting; every other bucket has its own |
| ImageService.WeatherIconIsFirstMatch | src/services/imageService.ts:110-119 | the icon is that of the first keyword rule, in order, that matches the lower-cased description |
| ImageService.RainOutranksStorm | src/services/imageService.ts:112-115 | a description with rain and storm (and no clear sky or cloud) gets the rain icon |
| ImageService.NightVariantsIffNight | src/services/imageService.ts:25-51 | each of the four time-dependent phrases takes its night variant exactly when the bucket is night |
| ImageService.PromptMentionsWeather | src/services/imageService.ts:9-58 | the prompt names the city, the weather description and the temperature followed by `°C` |
| ImageService.GenerateCityImage | src/services/imageService.ts:125-144 | an error for a non-OK status (the body text or a fixed message), then for an error member, then for a missing data URL; otherwise the data URL with the prompt that was sent |
| ImageService.ImageReplyChecks | src/services/imageService.ts:134-141 | the three reply checks apply in order, and each message is the one the code throws |
| Gallery.FormatTimestamp | src/components/RecentGallery.tsx:7-17 | "Just now" for an absent or unparsable timestamp; otherwise the locale formatting of the instant |
| Gallery.WithoutAppend | src/components/RecentGallery.tsx:71 | filtering out an id distributes over concatenation |
| Gallery.WithoutMembers | src/components/RecentGallery.tsx:71 | an item survives the filter exactly when its id differs from the current entry's id |
| Gallery.MergedShape | src/components/RecentGallery.tsx:64-74 | with a current entry the list starts with it (id defaulting to "local-latest"), followed by the other rows in order |
| Gallery.NavigationWraps | src/components/RecentGallery.tsx:136-148 | next and previous keep an index in range, wrap at both ends and undo each other |
| Gallery.ClampIndex | src/components/RecentGallery.tsx:79-88 | an empty list closes the viewer, and an index past the end moves to the last item |
| Gallery.ClampInRange | src/components/RecentGallery.tsx:79-88 | after the clamp, an open viewer's index names an item |
| Gallery.Viewer.constructor | src/components/RecentGallery.tsx:29-32 | the viewer starts closed with no remote rows |
| Gallery.Viewer.Open | src/components/RecentGallery.tsx:131-134 | only an index that holds an item opens the viewer |
| Gallery.Viewer.Close | src/components/RecentGallery.tsx:124-129 | the viewer closes and the rows stay |
| Gallery.Viewer.Next | src/components/RecentGallery.tsx:136-141 | the index moves one forward, wrapping to the first item |
| Gallery.Viewer.Previous | src/components/RecentGallery.tsx:143-148 | the index moves one back, wrapping to the last item |
| Gallery.Viewer.HandleKey | src/components/RecentGallery.tsx:90-105 | Escape closes, the arrow keys move, and any other key changes nothing |
| Gallery.Viewer.SetRemote | src/components/RecentGallery.tsx:42-88 | new rows replace the old ones and the index is clamped to the merged list |
| Gallery.Viewer.SetCurrent | src/components/RecentGallery.tsx:64-88 | a new current entry replaces the old one and the index is clamped to the merged list |
| ActivityFeed.TimeAgoMeaning | src/components/LiveActivityFeed.tsx:14-20 | under a minute (future times included) is "just now"; otherwise the count of whole minutes, hours or days elapsed, in the largest unit below its limit |
| ActivityFeed.PrependKeepsNewest | src/components/LiveActivityFeed.tsx:71 | the new item comes first, followed by the nine newest older items in order |
| ActivityFeed.LiveTickBounded | src/components/LiveActivityFeed.tsx:84-90 | a tick lands in 8..25 and, from a value already there, moves by at most one |
| ActivityFeed.Feed.constructor | src/components/LiveActivityFeed.tsx:23-26 | the feed starts loading, with no items, a total of 750 and the initial live count |
| ActivityFeed.Feed.FinishLoad | src/components/LiveActivityFeed.tsx:29-57 | only a non-empty result replaces the items, a known count sets the total to 750 plus it, and loading ends in every case |
| ActivityFeed.Feed.Insert | src/components/LiveActivityFeed.tsx:69-73 | a realtime insert is prepended, the list is capped at ten and the total grows by one |
| ActivityFeed.Feed.Tick | src/components/LiveActivityFeed.tsx:84-90 | the live count moves by the change and is clamped to 8..25 |
| ActivityFeed.NoClientNeverRenders | src/components/LiveActivityFeed.tsx:30-98 | without a database client loading ends, no item arrives and the feed renders nothing |
| ShareCard.SplitJoin | src/components/ShareableCard.tsx:68 | `split(" ")` loses nothing: joining the pieces with spaces gives the roast back, and no piece holds a space |
| ShareCard.LinesKeepWords | src/components/ShareableCard.tsx:72-83 | the lines hold all the words, in order, none dropped or repeated |
| ShareCard.LinesNonEmpty | src/components/ShareableCard.tsx:72-83 | no line drawn is empty of words |
| ShareCard.LinesBreakOnlyWhenForced | src/components/ShareableCard.tsx:75-78 | a line ends only where the next word made the candidate line wider than 900 |
| ShareCard.LinesFit | src/components/ShareableCard.tsx:75-81 | every word after a line's first was kept because the candidate fitted |
| ShareCard.WrapRoast | src/components/ShareableCard.tsx:65-83 | the loop draws the trimmed texts of the greedy lines, in order, at y = 1100, 1136, ..., and ends at the last line's y |
| ShareCard.WrapSpellsRoast | src/components/ShareableCard.tsx:68-83 | the drawn lines, untrimmed and joined, spell the roast's space-separated words in order |
| ShareCard.SharedTextsRecoverRoast | src/components/ShareableCard.tsx:122-159 | the clipboard text and the share text both start with the roast's share text, which can be read back from them |
| ShareCard.CardFileNameClean | src/components/ShareableCard.tsx:135 | the file name is the lower-cased city with white-space runs as `-`, then `-weather-roast.png`; no white space before the suffix, and a city without white space is only lower-cased |
| ShareCard.TweetUrlRecoversRoast | src/components/ShareableCard.tsx:145-149 | the intent address is the fixed tweet prefix followed by the encoded share text, which any inverse of the encoder turns back into the roast's share text and the suffix |
| ShareCard.ShareRequest | src/components/ShareableCard.tsx:161-173 | the native share carries the card file when the browser can share files, and otherwise the site URL |
| ShareCard.Card.constructor | src/components/ShareableCard.tsx:15 | the card starts not sharing |
| ShareCard.Card.Begin | src/components/ShareableCard.tsx:128-154 | a download or share started while another is in progress does nothing |
| ShareCard.Card.End | src/components/ShareableCard.tsx:140-180 | the `finally` clears the busy flag |
| Http.Field | api/generate-image.ts:51-52 | `v?.key` is the member of an object holding it, and otherwise absent |
| Http.ConcatEmpty | api/generate-image.ts:22-30 | the joined chunks are empty exactly when every chunk is |
| Http.ReadBody | api/generate-image.ts:19-34 | a truthy pre-parsed body is used as it is; no chunks or an unparsable body is absent; otherwise the parsed concatenation |
| Http.ReadJsonBody | api/generate-image.ts:19-34 | the loop that collects the stream returns what `ReadBody` describes |
| Http.FirstSet | api/generate-image.ts:13-15 | the first non-empty of two variables, else the fallback |
| Http.Response.constructor | api/generate-image.ts:36 | a response starts with status 200 and nothing written |
| Http.Response.SetStatus | api/generate-image.ts:38-39 | only the status changes |
| Http.Response.SetContentType | api/generate-image.ts:86 | only the Content-Type header changes |
| Http.Response.End | api/generate-image.ts:40 | the body is written and the response is finished |
| ImageEndpoint.PromptAccepted | api/generate-image.ts:51-52 | a prompt is accepted exactly when the body's `prompt` is a string that is not blank, and it is sent trimmed |
| ImageEndpoint.FindImagePart | api/generate-image.ts:68-71 | the position found is the first part with image data, and none is found only when no part has any |
| ImageEndpoint.LaterPartsIgnored | api/generate-image.ts:69-71 | parts after the first image part do not change which part is found |
| ImageEndpoint.DataUrlRoundTrip | api/generate-image.ts:80-84 | the data URL reads back (RFC 2397) as base64 data of the part's MIME type, `image/png` when it has none |
| ImageEndpoint.CheckOrder | api/generate-image.ts:36-59 | 405 for a non-POST request whatever else holds, then 500 without a key, then 400 for a missing prompt |
| ImageEndpoint.BadRequestMeansMissingPrompt | api/generate-image.ts:51-59 | a 400 reply means exactly that the method was POST, a client exists and the prompt was missing |
| ImageEndpoint.GenerationStatus | api/generate-image.ts:61-99 | after the model call the status is 200, 502 or 500 |
| ImageEndpoint.UnreadableBodyIsMissingPrompt | api/generate-image.ts:27-58 | an empty or unparsable body is a 400 "Missing prompt" |
| ImageEndpoint.GenerationOutcomes | api/generate-image.ts:61-99 | an image part gives a 200 JSON data URL, no image part gives 502 naming the model, and a throw gives 500 with the error's message or the fixed one |
| ImageEndpoint.Handle | api/generate-image.ts:36-100 | the reply written to the response is that of the pure handler |
| ImageEndpoint.WriteGenerationReply | api/generate-image.ts:61-99 | once the model was called, the reply written is the outcome's reply: 500 with the thrown message, 502 without an image part, else 200 JSON with the data URL |
| RoastEndpoint.CleanJson | api/generate-roast.ts:95-98 | the text is trimmed and is stripped of fences only when it starts with three backticks |
| RoastEndpoint.NoFenceLeft | api/generate-roast.ts:97 | after both replacements no run of three backticks remains |
| RoastEndpoint.CleanedHasNoFence | api/generate-roast.ts:95-98 | a cleaned reply that started with a fence holds no fence |
| RoastEndpoint.FencedReplyRoundTrip | api/generate-roast.ts:95-98 | a JSON body fenced as ```` ```json ```` lines, without backticks of its own, comes back trimmed |
| RoastEndpoint.AsWrittenPromptMisencodesDegrees | api/generate-roast.ts:71-81 | whatever the weather, the deployed prompt differs from the intended one |
| RoastEndpoint.RoastPromptMentionsWeather | vite.config.ts:113-125 | the intended prompt names the city, country, description, humidity and wind speed, and the temperature followed by `°C` |
| RoastEndpoint.CheckOrder | api/generate-roast.ts:45-66 | 405 for a non-POST request, then 500 without a key, then 400 when the body has no truthy `weather` |
| RoastEndpoint.ReplyFromFirstPart | api/generate-roast.ts:89-105 | only the first part is read; a missing part or text is a 500, and otherwise the cleaned text is parsed and echoed as JSON |
| RoastEndpoint.Handle | api/generate-roast.ts:45-113 | the reply written to the response is that of the pure handler, which asks the model with the prompt as this file writes it, `Â°C` included |
| RoastEndpoint.WriteTextReply | api/generate-roast.ts:83-112 | once the model was called, the reply written is the outcome's reply: 500 on a throw, a missing first text part or unparsable text, else 200 JSON with the parsed value |
| DevProxy.BodyText | vite.config.ts:31 | the body text is never empty: an empty body reads as `{}` |
| DevProxy.ImageProxy | vite.config.ts:19-81 | other paths are passed on; then 405, a 500 for an unparsable body, 400 for a falsy prompt, and the deployed reply for the generation |
| DevProxy.RoastProxy | vite.config.ts:84-157 | other paths are passed on; then 405, a 500 for an unparsable body, 400 without `weather`, and the deployed reply for the model's text |
| DevProxy.EmptyBodyIsMissingField | vite.config.ts:31-38 | an empty body gets the same 400 from the development and deployed copies |
| DevProxy.UnparsableBodyDiffers | vite.config.ts:30-79 | an unparsable body is a 500 with the parser's message in development, and a 400 when deployed |
| DevProxy.BlankPromptForwarded | vite.config.ts:34-42 | a prompt of white space only is sent to the model in development and refused when deployed |
| DevProxy.TrimmedPromptAgrees | vite.config.ts:31-79 | a parsed body whose prompt is already trimmed gets the same reply from both copies |
| DevProxy.RoastAgreesOnWeather | vite.config.ts:96-155 | a parsed body with a truthy `weather` gets the same reply from both roast copies when the model answers the deployed prompt (`Â°C`) as it answers the development one (`°C`) |
| DevProxy.RoastCopiesSendDifferentPrompts | vite.config.ts:96-155 | each copy's reply is the model's answer to its own prompt, and a model that echoes its prompt answers the two copies differently |
| DevProxy.CollectBody | vite.config.ts:27-29 | the `data` chunks collected by the loop are joined in order |
| DevProxy.HandleImage | vite.config.ts:19-81 | the middleware passes the request on exactly for other paths, and otherwise writes `ImageProxy`'s reply |
| DevProxy.WriteImageReply | vite.config.ts:40-79 | the dev copy of the image `try` block writes the same reply as the deployed endpoint's, the status left at 200 on success |
| DevProxy.HandleRoast | vite.config.ts:84-157 | the middleware passes the request on exactly for other paths, and otherwise writes `RoastProxy`'s reply |
| DevProxy.WriteRoastReply | vite.config.ts:127-155 | the dev copy of the roast `try` block writes the same reply as the deployed endpoint's, the status left at 200 on success |
| GithubService.Headers | src/services/githubService.ts:2-9 | the two fixed headers, and a bearer header exactly when the trimmed token is not empty |
| GithubService.TokenHeader | src/services/githubService.ts:2-8 | a blank token sends no credentials, and the token sent has no surrounding white space |
| GithubService.PageDigits | src/services/githubService.ts:20 | the captured group is a non-empty run of digits |
| GithubService.LastPageIsLeftmost | src/services/githubService.ts:20 | the page reported is that of the leftmost match |
| GithubService.NoLastPage | src/services/githubService.ts:20 | no page is reported only when the pattern matches nowhere |
| GithubService.Stars | src/services/githubService.ts:10-28 | an error naming the status exactly when it is outside 200..299; otherwise the last page of the link, else the array's length or 0 |
| GithubService.LastPageOfLastLink | src/services/githubService.ts:18-24 | a single `rel="last"` link for page n reads back as n |
| GithubService.LastPageSkipsNext | src/services/githubService.ts:18-24 | a `next` link followed by the `last` link for page n reads back as n |
| WeatherService.Round | src/services/weatherService.ts:82-83 | `Math.round` is within one half of its argument, halves rounded up |
| WeatherService.MapWeatherData | src/services/weatherService.ts:77-93 | each field of the result comes from the reply; the first condition supplies description and icon, with their fallbacks |
| WeatherService.LaterConditionsIgnored | src/services/weatherService.ts:78 | conditions after the first do not change the result |
| WeatherService.FetchByCity | src/services/weatherService.ts:28-75 | a blank city fails before any request; a non-OK reply fails with "City not found"; otherwise the mapped reply to the trimmed city's query |
| WeatherService.CityPaddingIgnored | src/services/weatherService.ts:29-33 | white space around the city changes nothing |
| WeatherService.SameTrimSameReply | src/services/weatherService.ts:29-33 | two cities with the same trimmed form get the same reply |
| WeatherService.BlankCityNoRequest | src/services/weatherService.ts:29-30 | a blank city's result does not depend on the API |
| WeatherService.FetchByCoords | src/services/weatherService.ts:40-47 | a non-OK reply fails with the location message; otherwise the mapped reply for the coordinates |
| WeatherService.ToSuggestions | src/services/weatherService.ts:62-68 | one suggestion per entry, each copied from its entry |
| WeatherService.FetchCitySuggestions | src/services/weatherService.ts:49-69 | a blank query gives no suggestions and makes no request; a non-OK reply fails; a body that is not an array gives none |
| WeatherService.SuggestionRequest | src/services/weatherService.ts:50-55 | the one request asks for at most five results for the trimmed query |
| WeatherService.SuggestionsKeepOrder | src/services/weatherService.ts:62-68 | the suggestions keep the reply's order |
| WeatherTypes.ResolvedLocation | src/hooks/useSupabaseSync.ts:22 | the given search location, else `city, country` |
| SupabaseSync.Prefix | src/hooks/useSupabaseSync.ts:23 | `slice(0, 48)`: the first 48 characters, or the whole image when it is shorter |
| SupabaseSync.SignatureSeesOnlyPrefix | src/hooks/useSupabaseSync.ts:23 | two images that agree on their first 48 characters give the same signature |
| SupabaseSync.Decide | src/hooks/useSupabaseSync.ts:17-35 | nothing unless weather, image and prompt are present and non-empty; nothing for the last signature; otherwise one save with the resolved location |
| SupabaseSync.NoRepeatSave | src/hooks/useSupabaseSync.ts:24-28 | running the effect again on what it just saved issues nothing |
| SupabaseSync.OnlyLastRemembered | src/hooks/useSupabaseSync.ts:15-28 | a search, another, then the first again saves the first twice |
| SupabaseSync.Sync.constructor | src/hooks/useSupabaseSync.ts:15 | no signature is recorded and nothing is saved |
| SupabaseSync.Sync.Run | src/hooks/useSupabaseSync.ts:17-35 | the save issued is the one `Decide` gives; its signature is recorded before the save goes out; no two consecutive saves share a signature |
| CityVisualization.Settle | src/services/contracts.ts:27-29 | a resolved service call yields its image URL and prompt; a rejection yields its message |
| CityVisualization.SettleAsWritten | src/services/imageService.ts:125-144 | a string result has no `imageUrl` or `prompt`, so both read as absent |
| CityVisualization.EntryFor | src/components/CityVisualization.tsx:64-73 | the entry carries the image, prompt, city, country, condition, temperature, time and resolved location |
| CityVisualization.DownloadNameClean | src/components/CityVisualization.tsx:89 | the download name is the lower-cased city with its white-space runs as `_`, plus `_skyline.png`, and holds no white space |
| CityVisualization.AsWrittenServiceLosesImage | src/services/imageService.ts:143 | with the service as written, a successful generation leaves the panel with no image and no prompt |
| CityVisualization.Panel.constructor | src/components/CityVisualization.tsx:35-40 | no image, no prompt, not loading, no error, no city generated |
| CityVisualization.Panel.Begin | src/components/CityVisualization.tsx:45-56 | nothing while a generation is in flight, or for the last city unless retrying; otherwise the latch is set and the panel is cleared |
| CityVisualization.Panel.Complete | src/components/CityVisualization.tsx:58-82 | success sets image and prompt and hands an entry to the callback; failure shows the message or the fixed one; loading and the latch end |
| CityVisualization.Panel.Download | src/components/CityVisualization.tsx:85-91 | without an image nothing happens; otherwise the link targets the image under the download name |
| CityVisualization.SecondRequestIgnored | src/components/CityVisualization.tsx:47-52 | once a city's generation has started, a second request for it without retry starts nothing |
| WeatherController.Controller.constructor | src/hooks/useWeatherController.ts:6-8 | no data, not loading, no error |
| WeatherController.Controller.ClearError | src/hooks/useWeatherController.ts:10 | only the error is cleared |
| WeatherController.Controller.SetCustomError | src/hooks/useWeatherController.ts:12-15 | the message is shown and the data is cleared |
| WeatherController.Controller.BeginCitySearch | src/hooks/useWeatherController.ts:17-25 | a blank city changes nothing and sends nothing; otherwise loading starts, the error clears and the trimmed city is sent |
| WeatherController.Controller.BeginCoordsSearch | src/hooks/useWeatherController.ts:42-47 | loading starts and the error clears |
| WeatherController.Controller.Finish | src/hooks/useWeatherController.ts:26-37 | success sets the data; failure shows the message or the fallback and clears the data; loading ends |
| WeatherController.Controller.FinishCitySearch | src/hooks/useWeatherController.ts:26-37 | failure without a message shows "City not found. Please try again." |
| WeatherController.Controller.FinishCoordsSearch | src/hooks/useWeatherController.ts:48-63 | failure without a message shows "Unable to fetch weather for your location." |
| WeatherController.TrimmedRequestSameReply | src/hooks/useWeatherController.ts:19-25 | the service trims again what the hook already trimmed, which changes nothing |
| WeatherController.SearchByCity | src/hooks/useWeatherController.ts:17-40 | a blank city changes nothing; otherwise the data becomes the service's answer, or the error its message |
| WeatherRoastHook.RoastState.constructor | src/hooks/useWeatherRoast.ts:6-8 | no roast, not loading, no error |
| WeatherRoastHook.RoastState.Begin | src/hooks/useWeatherRoast.ts:11-12 | loading starts and the error clears; the old roast stays |
| WeatherRoastHook.RoastState.Finish | src/hooks/useWeatherRoast.ts:14-24 | success sets and returns the roast; failure shows the message or "Failed to generate roast", keeps the old roast and returns nothing |
| WeatherRoastHook.RoastState.ClearRoast | src/hooks/useWeatherRoast.ts:27-30 | roast and error are cleared; loading is left as it is |
| WeatherRoastHook.Generate | src/hooks/useWeatherRoast.ts:10-25 | afterwards nothing is loading, and either a fresh roast or an error is shown |

## Left out

- Rendering: JSX, CSS, the canvas drawing beyond the roast's text positions, the map background and the full-screen API.
- The locale formatters (`toLocaleString`, `toLocaleTimeString`, `toLocaleDateString`) are parameters. Daylight-saving changes are left out: the browser's offset is one number.
- Lower-casing covers ASCII letters only; JavaScript's full Unicode case mapping is left out. White space (`trim`, `\s`) is the full ECMAScript set of white-space and line-terminator characters.
- `Date` parsing and `toISOString` are parameters. Days are counted as whole UTC days.
- `Math.random` is a parameter: the initial live count and each tick's change.
- The gallery's remote load (`getRecentSearches`) and its cancellation are left out. The rows arrive through `SetRemote`, and a failed load only sets an error message.
- Gallery.NavigationWraps: requires a non-empty list. The viewer is only open on a non-empty list, and the source's `% 0` would give `NaN` otherwise.
- ShareCard: text width is an abstract `measure` function. The canvas font metrics are not modelled. `encodeURIComponent` is a parameter.
- Http: bytes are treated as characters. UTF-8 decoding of the body chunks is left out.
- Http: `JSON.parse` is a parameter returning a result. `JSON.stringify` is represented by the JSON value it serialises.
- The Gemini client and the Supabase client are not modelled. The model's settled answer is a parameter, and the Supabase save's outcome is never read back.
- DevProxy: the message of the TypeError thrown by reading a member of `null` is written as V8 words it. The API key is not modelled, because it never changes a reply.
- GithubService.Stars: `Number` of a very long run of digits loses precision in JavaScript. The model reads the digits exactly. A failure of `res.json()` is left out.
- WeatherService: the request URL and its `encodeURIComponent` are modelled as the decoded query (`Query`). `Date.now` is a parameter.
- The debounce timer of the city suggestions hook is not modelled. `src/hooks/useCitySuggestions.ts` is not part of this model.
- WeatherRoastHook: overlapping roast calls are not modelled. Each generation is `Begin` followed by `Finish`.
- SupabaseSync.Sync.Run: only the last signature is remembered, as the code does, so an older search that comes back is saved again (see `SupabaseSync.OnlyLastRemembered`).
- `src/services/index.ts` imports `githubRepoService`, which is not in the repository. `GithubService` models `githubService.ts` as it stands.
- Streak.StreakHook.RecordSearch: the source writes the eight achievement checks out one by one. The model runs the same checks, in the same order, as a loop over the achievement table.
- The hooks' `useCallback`/`useEffect` dependency lists and React's batching of state updates are not modelled. Each method applies its updates in source order.

## Findings

| source | as written | input that shows it | evidently intended | confidence | as-written member | corrected member |
|---|---|---|---|---|---|---|
| src/services/imageService.ts:125-143 | `generateCityImage` resolves to the data URL string, while the `ImageService` contract (src/services/contracts.ts:28) and its caller (src/components/CityVisualization.tsx:59-60) destructure `{ imageUrl, prompt }` | any successful reply, e.g. `{ ok: true, dataUrl: "data:image/png;base64,AA" }`: the panel's image and prompt stay null, and nothing is saved | resolve to `{ imageUrl: dataUrl, prompt }` | not executed | ImageService.GenerateCityImageAsWritten, CityVisualization.AsWrittenServiceLosesImage | ImageService.GenerateCityImage, CityVisualization.Settle |
| api/generate-roast.ts:74 | the prompt writes the temperature unit as `Â°C`, the UTF-8 bytes of `°` read as Latin-1 | any weather, e.g. city "Oslo" at 3 degrees: the model is told `3Â°C` | `°C`, as in vite.config.ts:118 | not executed | RoastEndpoint.RoastPromptAsWritten, RoastEndpoint.AsWrittenPromptMisencodesDegrees, RoastEndpoint.HandlerReply | RoastEndpoint.RoastPrompt, RoastEndpoint.RoastPromptMentionsWeather, DevProxy.RoastProxy |

The deployed roast handler (`RoastEndpoint.HandlerReply`, `RoastEndpoint.Handle`) is modelled as written: it asks the model with the `Â°C` prompt. The development copy (`DevProxy.RoastProxy`) asks with the intended `°C` prompt. The two copies agree only when the model answers both prompts alike (`DevProxy.RoastAgreesOnWeather`).
