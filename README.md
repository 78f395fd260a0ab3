# Loading Backgrounds, modelled in Dafny

Loading Backgrounds is a Minecraft mod. It draws a crossfading slideshow of
PNG images behind Minecraft's loading screens, and it can move the
level-loading progress widget into a corner. This project models the
sequential logic at the mod's core and proves properties of it:

- `promise.dfy` (module `Promises`): the mod's promise library. A promise is
  a single-assignment cell over a `kotlin.Result`. `AwaitingCompletableFuture`
  is the settle-all collector: one array slot per input and a completion
  counter. `flattenResults` is the all-combinator's iterator loop. `settled`
  and `all` are driven by an explicit completion order.
- `png.dfy` (module `Pngs`):
  - `read`: skips 16 bytes, then reads the IHDR width and height as
    big-endian `int`s and checks them against 4..32767.
  - The cache of reads, and its `get(location)` compute step.
  - `get(locations)`: four workers drain one shared iterator. This is modelled
    as one interleaving of their claims, followed by a Fisher–Yates shuffle
    per worker and the all-combinator over the worker lists.
- `loading_backgrounds.dfy` (module `LoadingBackgrounds`):
  - The loading-message and loading-screen tests.
  - The `renderBackground` state machine over its five variables. A value
    function `Step` specifies one frame; the class `BackgroundRenderer`
    holds the variables and is proved against `Step`.
  - The `reloadResourcePacks` hash guard and `selectPNGLocationsOrReload`.
- `level_loading_screen.dfy` (module `LevelLoadingScreen`): the two variable
  modifiers that place the progress widget, in Java `int` arithmetic.
- `jvm.dfy` (module `Jvm`) and `config.dfy` (module `Configs`): the JVM and
  Kotlin pieces the core relies on, plus the configuration's fields and
  defaults.
  - JVM and Kotlin pieces: nullable values, exceptions, `Result`, 32-bit
    wrap-around, truncating division, `String.hashCode` and `List.hashCode`.

Time is a `real` that each frame receives. The outcome of every foreign call
is a parameter. Examples are the bytes a resource opens to, what a read
gives, the order in which promises complete, the shuffle's random draws, the
pack-name pattern and the resource listing.

Some behaviour of the code that a reader may not expect, all of it modelled
as written:

- `settled([])` and `all([])` never complete. The loop that registers one
  handler per input (`impl/async/Promise.kt:215`) registers none for an empty
  input, so nothing ever completes the collector.
- A re-acquisition that finds no image returns false
  (`LoadingBackgrounds.kt:216-218`), but it keeps the previous iterator and
  images. It has already restarted the clock and stopped any fade.
- An exception from `selectPNGs()` (the five-second wait at
  `LoadingBackgrounds.kt:134`) propagates out of `renderBackground` at
  `LoadingBackgrounds.kt:216`. It is not treated like an empty selection.
- After a re-acquisition (`LoadingBackgrounds.kt:221-224`), the image shown
  first is the list's second element (its first for a one-image list). In
  that first round the first element is not drawn at all; it first appears,
  fading in, when the cycle wraps.
- `get(location)` replaces an entry whose read is still pending
  (`impl/PNG.kt:69`), although the comments at `impl/PNG.kt:58-59` and
  `impl/PNG.kt:73` say such an entry is reused (see Findings).

## Model

| member | source | states |
|---|---|---|
| Configs.Ordinal | common/src/main/java/dev/foxgirl/mc/loadingbackgrounds/Config.kt:15-17 | the five positions have ordinals below 5, and only CENTER has ordinal 0 |
| Jvm.Div | common/src/main/java/dev/foxgirl/mc/loadingbackgrounds/mixin/LevelLoadingScreenMixin.java:44 | Java `/` truncates toward zero: the remainder has the dividend's sign and is smaller than the divisor |
| Promises.Promise.Resolved | common/src/main/java/dev/foxgirl/mc/loadingbackgrounds/impl/async/Promise.kt:23 | a promise built from a value is already resolved with it |
| Promises.Promise.Rejected | common/src/main/java/dev/foxgirl/mc/loadingbackgrounds/impl/async/Promise.kt:30 | a promise built from a cause is already rejected with it |
| Promises.Promise.Incomplete | common/src/main/java/dev/foxgirl/mc/loadingbackgrounds/impl/async/Promise.kt:198 | a fresh future is pending |
| Promises.Promise.ResultOrNull | common/src/main/java/dev/foxgirl/mc/loadingbackgrounds/impl/async/Promise.kt:59-68 | `result` is null iff the promise has not completed, and otherwise is exactly the outcome it completed with |
| Promises.Promise.Complete | common/src/main/java/dev/foxgirl/mc/loadingbackgrounds/impl/async/Promise.kt:202 | only the first completion takes effect; the answer is true iff the promise was pending, and a completed promise is unchanged |
| Promises.CreateResult | common/src/main/java/dev/foxgirl/mc/loadingbackgrounds/impl/async/Promise.kt:207-209 | a failure iff the cause is non-null, carrying that cause; otherwise a success carrying the value |
| Promises.FinallySeesOutcome | common/src/main/java/dev/foxgirl/mc/loadingbackgrounds/impl/async/Promise.kt:161-162 | for every outcome, the pair a handler receives rebuilds exactly that outcome |
| Promises.EvaluatePromiseConsumer | common/src/main/java/dev/foxgirl/mc/loadingbackgrounds/impl/async/Promise.kt:197-205 | the consumer's first completion wins; with none, a throwing consumer rejects the promise with its exception, and otherwise the promise stays pending |
| Promises.AwaitingCompletableFuture.constructor | common/src/main/java/dev/foxgirl/mc/loadingbackgrounds/impl/async/Promise.kt:211-213 | one empty slot per input, a zero count, pending |
| Promises.AwaitingCompletableFuture.OnSettled | common/src/main/java/dev/foxgirl/mc/loadingbackgrounds/impl/async/Promise.kt:216-225 | the handler fills exactly slot i and adds one to the count; the collector completes, with the filled list, exactly when the count reaches the number of inputs |
| Promises.Settled | common/src/main/java/dev/foxgirl/mc/loadingbackgrounds/impl/async/Promise.kt:211-228 | for any completion order, the collector completes iff every input completed and there is at least one input, and then slot i holds input i's outcome |
| Promises.FlattenAfterSuccesses | common/src/main/java/dev/foxgirl/mc/loadingbackgrounds/impl/async/Promise.kt:236-252 | successes at the front of the list only put their values, in order, in front of the rest's result |
| Promises.FlattenResults | common/src/main/java/dev/foxgirl/mc/loadingbackgrounds/impl/async/Promise.kt:234-255 | the iterator loop with its do-while computes exactly the all-combinator's specification |
| Promises.CausesAppend | common/src/main/java/dev/foxgirl/mc/loadingbackgrounds/impl/async/Promise.kt:242-245 | the suppressed failures of a list are those of its parts, in order |
| Promises.AllSuccessesYieldValues | common/src/main/java/dev/foxgirl/mc/loadingbackgrounds/impl/async/Promise.kt:236-253 | with no failure, `all` succeeds with one value per input, in input order |
| Promises.AllFailsIffSomeFailure | common/src/main/java/dev/foxgirl/mc/loadingbackgrounds/impl/async/Promise.kt:238-250 | `all` fails iff some input failed |
| Promises.FirstFailureIsPrimary | common/src/main/java/dev/foxgirl/mc/loadingbackgrounds/impl/async/Promise.kt:239-249 | the first failure by index is rethrown unchanged when it is last, and otherwise wrapped with every later failure suppressed, in index order |
| Promises.All | common/src/main/java/dev/foxgirl/mc/loadingbackgrounds/impl/async/Promise.kt:275 | `all` completes iff every input completed and there is at least one, and then with the all-combinator over the outcomes in input order |
| Pngs.Read | common/src/main/java/dev/foxgirl/mc/loadingbackgrounds/impl/PNG.kt:43-53 | an open failure propagates; fewer than 24 bytes is an EOF error, not null; otherwise null iff a dimension read at bytes 16..19 or 20..23 is outside 4..32767, else a PNG with the location and exactly those dimensions |
| Pngs.ReadIntEncodeInt | common/src/main/java/dev/foxgirl/mc/loadingbackgrounds/impl/PNG.kt:47-48 | reading four big-endian bytes gives back the `int` they encode, negative ones included |
| Pngs.ReadDimensions | common/src/main/java/dev/foxgirl/mc/loadingbackgrounds/impl/PNG.kt:44-51 | whatever the first 16 bytes and the trailing bytes are, the encoded width and height are read back, or null when out of range |
| Pngs.WellFormedPng | common/src/main/java/dev/foxgirl/mc/loadingbackgrounds/impl/PNG.kt:44-51 | a file with the PNG signature and an IHDR of usable size reads as that size |
| Pngs.PngCache.constructor | common/src/main/java/dev/foxgirl/mc/loadingbackgrounds/impl/PNG.kt:60 | the cache starts empty |
| Pngs.PngCache.Get | common/src/main/java/dev/foxgirl/mc/loadingbackgrounds/impl/PNG.kt:66-78 | the returned promise is the one left for the key and no other key changes; an entry completed with a PNG is reused, and anything else (none, pending, null, failed) is replaced by a new pending read |
| Pngs.PngCache.GetDeduplicated | common/src/main/java/dev/foxgirl/mc/loadingbackgrounds/impl/PNG.kt:58-59 | as `Get`, but a pending entry is reused too |
| Pngs.RunRead | common/src/main/java/dev/foxgirl/mc/loadingbackgrounds/impl/PNG.kt:71 | the I/O task completes a pending promise with what `read` gives |
| Pngs.DuplicateReadWhilePending | common/src/main/java/dev/foxgirl/mc/loadingbackgrounds/impl/PNG.kt:68-72 | two lookups of a location whose read is pending give two different pending reads |
| Pngs.SharedReadWhilePending | common/src/main/java/dev/foxgirl/mc/loadingbackgrounds/impl/PNG.kt:58-59 | with the deduplicating lookup they share one read |
| Pngs.RetryAfterRead | common/src/main/java/dev/foxgirl/mc/loadingbackgrounds/impl/PNG.kt:68-75 | after a read completes, a second lookup reuses it iff it found a PNG |
| Pngs.LocationCursor.constructor | common/src/main/java/dev/foxgirl/mc/loadingbackgrounds/impl/PNG.kt:87 | the shared iterator starts at the first location |
| Pngs.LocationCursor.Claim | common/src/main/java/dev/foxgirl/mc/loadingbackgrounds/impl/PNG.kt:97-99 | a claim takes the next unclaimed location and moves on by one, or reports exhaustion and moves nowhere |
| Pngs.Shuffle | common/src/main/java/dev/foxgirl/mc/loadingbackgrounds/impl/PNG.kt:105 | whatever the draws, the shuffled list is a permutation of the original |
| Pngs.FailureOfIffFailedClaim | common/src/main/java/dev/foxgirl/mc/loadingbackgrounds/impl/PNG.kt:101 | a worker ends with an exception iff one of its awaited reads failed |
| Pngs.ClaimNext | common/src/main/java/dev/foxgirl/mc/loadingbackgrounds/impl/PNG.kt:97-102 | one claim advances the cursor by one and keeps each worker's claimed locations, collected PNGs and failure equal to their specifications |
| Pngs.ClaimInTurn | common/src/main/java/dev/foxgirl/mc/loadingbackgrounds/impl/PNG.kt:96-103 | after every claim of the interleaving, each worker holds exactly its claims, its non-null PNGs and its first failure, and every claimed location was claimed once |
| Pngs.DrainQueue | common/src/main/java/dev/foxgirl/mc/loadingbackgrounds/impl/PNG.kt:90-103 | each claimed location is claimed by exactly one worker, exactly once, in list order; each surviving worker then finds the iterator exhausted, so if any worker survives, every location was claimed |
| Pngs.FinishWorkers | common/src/main/java/dev/foxgirl/mc/loadingbackgrounds/impl/PNG.kt:104-106 | a worker that did not fail returns a permutation of its PNGs, and one that failed rejects with its exception |
| Pngs.JoinedOutcome | common/src/main/java/dev/foxgirl/mc/loadingbackgrounds/impl/PNG.kt:111 | the joined result succeeds iff every awaited read succeeded, and then holds no more PNGs than there are locations |
| Pngs.GetMany | common/src/main/java/dev/foxgirl/mc/loadingbackgrounds/impl/PNG.kt:85-112 | for any interleaving, every claimed location is claimed once by one worker; each worker's list is a permutation of its non-null PNGs or its failure; the result is `all` over the workers, flattened in worker order, succeeds iff every read did, and is never longer than the location list; a success means every location was read, and holds every non-null PNG found, each as often as it was found |
| Pngs.CollectedPartition | common/src/main/java/dev/foxgirl/mc/loadingbackgrounds/impl/PNG.kt:97-103 | the workers' collected lists, joined, hold exactly the non-null PNGs the claims found, each as often as it was found |
| Pngs.JoinedContents | common/src/main/java/dev/foxgirl/mc/loadingbackgrounds/impl/PNG.kt:101-111 | when the joined result succeeds, every location was claimed, and the joined lists are a permutation of all the non-null PNGs found |
| Pngs.JoinedPermutation | common/src/main/java/dev/foxgirl/mc/loadingbackgrounds/impl/PNG.kt:104-111 | lists that are, worker by worker, permutations of the collected PNGs join to a permutation of all the PNGs found |
| LevelLoadingScreen.FarSideMirrorsInset | common/src/main/java/dev/foxgirl/mc/loadingbackgrounds/mixin/LevelLoadingScreenMixin.java:44-47 | the far-side placement and the inset add up to the extent in `int` arithmetic, for every extent and diameter |
| LevelLoadingScreen.BottomMirrorsInset | common/src/main/java/dev/foxgirl/mc/loadingbackgrounds/mixin/LevelLoadingScreenMixin.java:80-89 | the bottom placements mirror the inset about the height, or about the height minus 30 |
| LevelLoadingScreen.ProgressX | common/src/main/java/dev/foxgirl/mc/loadingbackgrounds/mixin/LevelLoadingScreenMixin.java:35-52 | CENTER keeps x; the left positions take d + d/4; the right positions take its mirror image, which adds up with it to the width |
| LevelLoadingScreen.PlaceY | common/src/main/java/dev/foxgirl/mc/loadingbackgrounds/mixin/LevelLoadingScreenMixin.java:74-90 | the top positions take d + d/4, plus 15 with the newer arithmetic; the bottom positions mirror the inset about the height, or about the height minus 30 with the older arithmetic |
| LevelLoadingScreen.ProgressY | common/src/main/java/dev/foxgirl/mc/loadingbackgrounds/mixin/LevelLoadingScreenMixin.java:60-95 | CENTER keeps y; otherwise the placement of `PlaceY`, with the newer arithmetic iff the version does not start with 1.20 or is 1.20.5 or 1.20.6 |
| LevelLoadingScreen.VerticalPlacements | common/src/main/java/dev/foxgirl/mc/loadingbackgrounds/mixin/LevelLoadingScreenMixin.java:74-90 | top and bottom placements add up to the height plus 15 (newer) or minus 30 (older) |
| LevelLoadingScreen.InsetIsQuarterMore | common/src/main/java/dev/foxgirl/mc/loadingbackgrounds/mixin/LevelLoadingScreenMixin.java:44 | without overflow the inset is d plus a quarter of d rounded down, between 1.25 d − 0.75 and 1.25 d |
| LevelLoadingScreen.PlacementIgnoresOriginal | common/src/main/java/dev/foxgirl/mc/loadingbackgrounds/mixin/LevelLoadingScreenMixin.java:35-95 | a non-CENTER placement does not depend on the coordinate Minecraft computed |
| LevelLoadingScreen.VersionBranches | common/src/main/java/dev/foxgirl/mc/loadingbackgrounds/mixin/LevelLoadingScreenMixin.java:69-73 | 1.20, 1.20.1 and 1.20.4 take the older arithmetic; 1.20.5, 1.20.6, 1.19.4, 1.21 and 1.21.1 the newer |
| LoadingBackgrounds.LoadingMessageByKeys | common/src/main/java/dev/foxgirl/mc/loadingbackgrounds/LoadingBackgrounds.kt:66-71 | a component is a loading message (`IsLoadingMessage`) iff one of the 16 loading keys occurs somewhere in its tree |
| LoadingBackgrounds.LoadingScreenByKeys | common/src/main/java/dev/foxgirl/mc/loadingbackgrounds/LoadingBackgrounds.kt:73-79 | a screen is a loading screen (`IsLoadingScreen`) iff it is one of the four loading screen classes, or its title holds one of the 16 loading keys |
| LoadingBackgrounds.Cycle.Next | common/src/main/java/dev/foxgirl/mc/loadingbackgrounds/LoadingBackgrounds.kt:221-224 | the cycle returns the element at its position and moves on by one, back to the start after the last |
| LoadingBackgrounds.YieldsRotate | common/src/main/java/dev/foxgirl/mc/loadingbackgrounds/LoadingBackgrounds.kt:221-240 | within one round, the i-th image returned is the one i places after the position, round the end |
| LoadingBackgrounds.EveryImageOncePerRound | common/src/main/java/dev/foxgirl/mc/loadingbackgrounds/LoadingBackgrounds.kt:221-240 | one round of the cycle is the list rotated to its position: every image exactly as often as in the list |
| LoadingBackgrounds.Clamp | common/src/main/java/dev/foxgirl/mc/loadingbackgrounds/LoadingBackgrounds.kt:229 | `coerceIn(0.0, 1.0)` lies in 0..1, keeps values inside and maps values below or above to the bounds |
| LoadingBackgrounds.FadeOpacity | common/src/main/java/dev/foxgirl/mc/loadingbackgrounds/LoadingBackgrounds.kt:229 | the fade opacity lies in 0..1, equals elapsed/fade within the fade and 1 after it, and is NaN iff both are zero |
| LoadingBackgrounds.FadeOpacityMonotonic | common/src/main/java/dev/foxgirl/mc/loadingbackgrounds/LoadingBackgrounds.kt:229 | with a positive fade time the incoming image never gets fainter as time passes |
| LoadingBackgrounds.Phase | common/src/main/java/dev/foxgirl/mc/loadingbackgrounds/LoadingBackgrounds.kt:227-244 | phase handling keeps the variables consistent, returns true, and draws only images of the cycle |
| LoadingBackgrounds.Step | common/src/main/java/dev/foxgirl/mc/loadingbackgrounds/LoadingBackgrounds.kt:198-246 | a non-loading screen gives false and changes nothing; true iff something is drawn; drawn images come from the cycle; numeric opacities lie in 0..1, and NaN is drawn only when the fade time and the elapsed time are both 0; the clock stays or becomes now; an exception only comes from the selection |
| LoadingBackgrounds.BackgroundRenderer.constructor | common/src/main/java/dev/foxgirl/mc/loadingbackgrounds/LoadingBackgrounds.kt:189-196 | no iterator or images, clock at 0, not fading |
| LoadingBackgrounds.BackgroundRenderer.RenderBackground | common/src/main/java/dev/foxgirl/mc/loadingbackgrounds/LoadingBackgrounds.kt:198-246 | one call updates the five variables, returns and draws exactly as `Step` says, keeping them consistent |
| LoadingBackgrounds.BackgroundRenderer.AcquireImages | common/src/main/java/dev/foxgirl/mc/loadingbackgrounds/LoadingBackgrounds.kt:221-224 | a new cycle over the images, advanced twice: the first returned becomes previous and the second current |
| LoadingBackgrounds.BackgroundRenderer.RenderPhase | common/src/main/java/dev/foxgirl/mc/loadingbackgrounds/LoadingBackgrounds.kt:227-242 | the phase handling changes the variables and draws exactly as `Phase` says |
| LoadingBackgrounds.Reacquire | common/src/main/java/dev/foxgirl/mc/loadingbackgrounds/LoadingBackgrounds.kt:207-224 | when stale, the clock restarts and fading stops; a failed selection rethrows and an empty one returns false, both keeping the images; otherwise current is the next element (element 0 again for one image), drawn fully; with a non-negative stay time previous is element 0 and the frame is steady, and with a negative one the same frame already starts a fade, previous becoming that element and current the one after it |
| LoadingBackgrounds.SelectionOnlyWhenStale | common/src/main/java/dev/foxgirl/mc/loadingbackgrounds/LoadingBackgrounds.kt:207-216 | images are selected only when there is no iterator or the clock is stale |
| LoadingBackgrounds.FadeFrame | common/src/main/java/dev/foxgirl/mc/loadingbackgrounds/LoadingBackgrounds.kt:227-233 | a fade draws previous fully and current at the clamped fade opacity; past the fade time it turns steady and restarts the clock with the images unchanged |
| LoadingBackgrounds.SteadyFrame | common/src/main/java/dev/foxgirl/mc/loadingbackgrounds/LoadingBackgrounds.kt:234-241 | a steady frame draws current fully; past the stay time it starts a fade, previous becomes current, current the cycle's next image, and the clock restarts |
| LoadingBackgrounds.DefaultTimeline | common/src/main/java/dev/foxgirl/mc/loadingbackgrounds/LoadingBackgrounds.kt:198-246 | with the default 5 s stay and 0.5 s fade, three images show B, fade to C at half opacity a quarter second in, finish the fade, and show B again after a pause |
| LoadingBackgrounds.PackReloader.constructor | common/src/main/java/dev/foxgirl/mc/loadingbackgrounds/LoadingBackgrounds.kt:83 | the remembered hash starts at 0 |
| LoadingBackgrounds.PackReloader.AddPack | common/src/main/java/dev/foxgirl/mc/loadingbackgrounds/LoadingBackgrounds.kt:98 | selecting a pack answers true iff it was not selected before |
| LoadingBackgrounds.PackReloader.AddMatchingPacks | common/src/main/java/dev/foxgirl/mc/loadingbackgrounds/LoadingBackgrounds.kt:91-100 | every matching pack gets selected, and the flag is set iff one of them was not selected before |
| LoadingBackgrounds.PackReloader.ReloadResourcePacks | common/src/main/java/dev/foxgirl/mc/loadingbackgrounds/LoadingBackgrounds.kt:85-113 | an unchanged list hash does nothing and gives false; otherwise the hash is recorded, every matching pack is selected, and a reload starts (true) iff a new pack was selected |
| LoadingBackgrounds.PackReloader.SelectPngLocationsOrReload | common/src/main/java/dev/foxgirl/mc/loadingbackgrounds/LoadingBackgrounds.kt:121-129 | a non-empty listing, or resource loading switched off, is returned untouched; otherwise the reload is tried, and the relisting is used iff a reload started |
| LoadingBackgrounds.ReloadTwice | common/src/main/java/dev/foxgirl/mc/loadingbackgrounds/LoadingBackgrounds.kt:85-89 | the same pack list twice never reloads the second time |
| LoadingBackgrounds.HashesCollide | common/src/main/java/dev/foxgirl/mc/loadingbackgrounds/LoadingBackgrounds.kt:86 | the id lists ["Aa"] and ["BB"] have the same hash, 2143 |
| LoadingBackgrounds.CollidingPackLists | common/src/main/java/dev/foxgirl/mc/loadingbackgrounds/LoadingBackgrounds.kt:86-88 | after the list ["Aa"], a newly available matching pack "BB" is not selected: the guard compares hashes, not lists |

## Left out

- Coroutines, executors, threads and locks (`Async.kt`, `synchronized`) are left out. Every lock-protected step is one atomic call. The order in which promises complete, and which worker makes each claim, are parameters.
- The race in which the I/O executor completes a read before `compute` stores the new promise is not modelled.
- The `CompletableFuture` internals behind `then`, `thenCompose`, `thenCombine`, `exceptionally` and `handle` are left out.
- The JDK's wrapping of exceptions in `CompletionException` or `ExecutionException` is not modelled.
- `renderPNG`, the brightness and all drawing are left out. They are floating-point rendering; a frame's drawing is recorded as a list of (image, opacity) pairs.
- LoadingBackgrounds.FadeOpacity: opacities are exact reals. The model leaves out `Double` and `Float` rounding, signed zeros and the infinities a zero fade time produces: it keeps only their clamped effect and the NaN at elapsed 0.
- `ScreenMixin.java`, the mod-loader entry points, `LoadingBackgrounds.java` and `LoadedMod.java` are not part of this model. They are UI hooks and glue.
- Reading the configuration file is left out. Its fields are a datatype with the defaults, and a null position from a hand-edited file is not modelled.
- The pack-name pattern is the parameter `matches`. Resource listing, `open`, the 5-second `get` and `System.nanoTime` are inputs.
- `selectPNGs()` is not one member: its outcome (the images, or the exception the 5-second get throws) is the `selection` parameter of `Step`. Its two halves are `SelectPngLocationsOrReload` and `GetMany`.
- `PackRepository.addPack` is modelled as insertion into the set of selected ids.
- Starting the resource reload is counted, not performed.
- Pngs.Shuffle: the random draws are a parameter, and only a permutation is promised, as the source does.
- Jvm.StringHashCode: computed over the string's characters, which stand for UTF-16 code units.
- Pngs.GetMany: the worker lists are joined through `Promises.All` with every worker completing. A worker never waits forever, because each read it awaits is an input outcome.

## Findings

| source | as written | input that shows it | evidently intended | confidence | as-written member | corrected member |
|---|---|---|---|---|---|---|
| common/src/main/java/dev/foxgirl/mc/loadingbackgrounds/impl/PNG.kt:68-72 | `promise.result?.getOrNull() == null` is also true for a promise still pending, so `get(location)` replaces a pending entry with a second read | two `get` calls for one location before its first read has finished | the comment at lines 58-59: a pending or completed promise is returned as it is, so only one read runs | high, not executed | Pngs.DuplicateReadWhilePending | Pngs.SharedReadWhilePending |
