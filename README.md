# Vedica portfolio site: image resolver, lazy image and page state in Dafny

This project models the few pieces of logic in the Vedica interior-design
portfolio, a client-rendered React single-page site:

- **The image URL resolver** (`src/config/imageConfig.js`). A delivery mode is
  chosen from the bundler's build mode: `JSDELIVR` for a production build,
  `LOCAL` otherwise. In local mode images live under `/src/assets`. In jsDelivr
  mode they are served from `https://cdn.jsdelivr.net/gh/<user>/<repo>@<branch>/src/assets`.
  An image URL is the base, a `/`, then the asset path. A `srcset` is one
  `"<url> <w>w"` entry per width, joined by `", "`, in jsDelivr mode; in local
  mode it is the bare URL. Module `ImageConfig` (file `image_config.dfy`),
  with the string helpers it needs in module `Text` (`text.dfy`).
- **The `OptimizedImage` component** (`src/components/OptimizedImage.jsx`). Each
  instance has three flags, `isInView`, `isLoaded` and `hasError`, and an
  IntersectionObserver that may be watching its element. The flags start from
  the `lazy` and `priority` props. They change through the mount effect, the
  observer callback, `handleLoad` and `handleError`. The render is a function
  of the flags: the error fallback, the out-of-view placeholder, a pulse over
  a transparent `<img>`, or the fully visible `<img>`. Module `OptimizedImage`
  (`optimized_image.dfy`): pure functions `Initial`, `Step`, `Run`, `Render`,
  `ViewOf`, `ImageSrc`, `LoadingAttr`, and the class `LazyImage`, whose handler
  methods update its fields and are proved equal to `Step`.
- **The page component's state** (`src/App.jsx`). The carousel's
  `currentSlide` moves with `nextSlide`, `prevSlide` and `goToSlide` over the
  four carousel items; the indicator of the current slide is highlighted. The
  five-colour palette changes one key at a time with `handleColorChange` and
  returns to its defaults with `resetColors`. Module `App` (`app.dfy`): pure
  updaters `NextIndex`, `PrevIndex`, `ChangeColor`, and the class `AppState`
  whose methods apply them.

`IMAGE_CONFIG` is a module-level constant in the source; here it is a
`Config` value passed to every resolver function, and `SiteConfig` builds the
site's own value from a build mode. JavaScript's `%` truncates toward zero, so
`App.JsRemainder` models it; for the in-range indices the page produces it
agrees with Dafny's `%`.

Three edge cases of the resolver, as the code has them: the local base is
`/src/assets`, and the jsDelivr base also ends in `/src/assets`; an empty
asset path is not rejected but resolves to the base followed by `/`; and a
jsDelivr `srcset` over an empty width list is the empty string.

## Model

| member | source | states |
|---|---|---|
| ImageConfig.SiteConfig | src/config/imageConfig.js:16-28 | the site's configuration is in jsDelivr mode exactly for a production build, and always names the `hmishra/vedica` repository on `main` and the jsDelivr GitHub endpoint |
| ImageConfig.ModeFor | src/config/imageConfig.js:18 | the mode is jsDelivr exactly when the build mode is `"production"`, local otherwise |
| ImageConfig.BaseUrl | src/config/imageConfig.js:51-57 | the base always ends with `/src/assets`, and it is exactly `/src/assets` if and only if the mode is local |
| ImageConfig.BaseUrlNamesRepository | src/config/imageConfig.js:51-55 | in jsDelivr mode the owner, repository and branch read back from the base URL in their places (owner before the first `/`, repository before the `@`), given an owner without `/` and a repository without `@` |
| ImageConfig.ImageUrl | src/config/imageConfig.js:64-67 | the URL starts with the base followed by `/`, ends with the asset path, and is exactly as long as both together |
| ImageConfig.ImageUrlInjective | src/config/imageConfig.js:64-67 | different asset paths never resolve to the same URL |
| ImageConfig.SrcSetEntry | src/config/imageConfig.js:81 | an entry starts with the URL and a space, ends in `w`, and between them holds exactly the printed width |
| ImageConfig.EntryCommaFree | src/config/imageConfig.js:81 | an entry adds no comma to a comma-free URL |
| ImageConfig.SrcSetEntries | src/config/imageConfig.js:81 | the `map` yields one entry per width, entry i built from the URL and width i |
| ImageConfig.ParseSrcSetEntryRoundTrip | src/config/imageConfig.js:81 | an entry `"<url> <w>w"` reads back as that URL and that width, whatever the URL |
| ImageConfig.SrcSet | src/config/imageConfig.js:75-86 | in local mode the srcset is the image URL whatever the widths; in jsDelivr mode it is the entries for the image URL, one per width, joined by `", "`, and empty with no widths |
| ImageConfig.SrcSetRoundTrip | src/config/imageConfig.js:78-82 | for at least one width and an image URL without commas, the jsDelivr srcset splits at `", "` into exactly one entry per width, in input order, each carrying the same image URL and its own width |
| ImageConfig.DefaultSrcSet | src/config/imageConfig.js:75-82 | for an image URL without commas, the jsDelivr srcset over the default widths has five entries, the first at 640w and the last at 1920w |
| ImageConfig.DevelopmentImageUrl | src/config/imageConfig.js:16-67 | a development build resolves `trivarna/p1.JPG` to `/src/assets/trivarna/p1.JPG` |
| ImageConfig.ProductionImageUrl | src/config/imageConfig.js:16-67 | a production build resolves `trivarna/p1.JPG` to the jsDelivr URL of the `hmishra/vedica@main` repository |
| Text.DecimalString | src/config/imageConfig.js:81 | a width prints as a non-empty string of decimal digits without a leading zero |
| Text.ParseDecimalString | src/config/imageConfig.js:81 | reading a printed width back gives the width |
| Text.DecimalStringInjective | src/config/imageConfig.js:81 | different widths print differently |
| Text.Join | src/config/imageConfig.js:81 | joining no parts gives the empty string, and only no parts or a single empty part do; otherwise the result starts with the first part and ends with the last |
| Text.SplitJoin | src/config/imageConfig.js:81 | joining one or more comma-free entries with `", "` and splitting again gives back the entries in order |
| OptimizedImage.DefaultProps | src/components/OptimizedImage.jsx:25-31 | a caller that passes only a source gets a lazy, non-priority image: it starts out of view and its `<img>` will carry `loading="lazy"` |
| OptimizedImage.Initial | src/components/OptimizedImage.jsx:35-37 | the first state is in view (loading) exactly when the image is not lazy or has priority, and out of view otherwise; it is consistent and nothing is observed |
| OptimizedImage.Step | src/components/OptimizedImage.jsx:45-89 | no event clears a flag; load sets only `isLoaded`, error sets only `hasError`, the effect and the observer touch neither |
| OptimizedImage.RunGrows | src/components/OptimizedImage.jsx:35-89 | over any sequence of events every flag that was set stays set |
| OptimizedImage.RepeatedIntersectionIgnored | src/components/OptimizedImage.jsx:59-67 | after an intersecting entry, any later notification leaves the state unchanged |
| OptimizedImage.ErrorIsTerminal | src/components/OptimizedImage.jsx:86-115 | once an error is recorded, the fallback is rendered after any further events |
| OptimizedImage.ImageSrc | src/components/OptimizedImage.jsx:41-43 | the source is kept as it is exactly when it starts with `/`, and otherwise is its resolved image URL; it always ends with the given source; in local mode it always starts with `/` |
| OptimizedImage.LocalImageSrcIdempotent | src/components/OptimizedImage.jsx:41-43 | in local mode resolving a resolved source changes nothing |
| OptimizedImage.LoadingAttr | src/components/OptimizedImage.jsx:139 | the attribute is never empty; it is the `loading` prop when that is a non-empty string, else `eager` exactly for priority images and `lazy` for the others |
| OptimizedImage.Render | src/components/OptimizedImage.jsx:91-150 | the fallback box is rendered exactly when `hasError`; otherwise exactly one of placeholder and `<img>` is present, a pulse only over a transparent `<img>`, and the `<img>` is present exactly when in view, the pulse shows exactly while in view and not loaded, the `<img>` is fully opaque exactly when loaded, and it has the chosen source and loading attribute |
| OptimizedImage.RenderShowsView | src/components/OptimizedImage.jsx:91-150 | each of the four views (fallback, not in view, loading, loaded) corresponds, in both directions, to exactly one markup shape |
| OptimizedImage.EagerImageRendersImgAtOnce | src/components/OptimizedImage.jsx:35-50 | a priority or non-lazy image renders its `<img>` from the first render |
| OptimizedImage.LazyImageWaitsForIntersection | src/components/OptimizedImage.jsx:45-73 | a lazy, non-priority image stays out of view, with no `<img>` in the markup, until an intersecting entry arrives |
| OptimizedImage.DeliverableRunsStayConsistent | src/components/OptimizedImage.jsx:82-143 | when load and error come only from a rendered `<img>`, an image is loaded or failed only after it came into view |
| OptimizedImage.LazyImage.constructor | src/components/OptimizedImage.jsx:35-37 | initially `isInView` holds exactly when the image is not lazy or has priority, the other flags are false and nothing is observed |
| OptimizedImage.LazyImage.RunEffect | src/components/OptimizedImage.jsx:45-80 | priority or non-lazy images go in view and register no observer; the others start being observed |
| OptimizedImage.LazyImage.OnIntersection | src/components/OptimizedImage.jsx:59-69 | after a batch, the element is in view if it was or any entry intersects, and is no longer observed if any entry intersects |
| OptimizedImage.LazyImage.HandleLoad | src/components/OptimizedImage.jsx:82-84 | sets `isLoaded` and changes nothing else |
| OptimizedImage.LazyImage.HandleError | src/components/OptimizedImage.jsx:86-89 | sets `hasError` and changes nothing else |
| OptimizedImage.LazyImage.Rendered | src/components/OptimizedImage.jsx:91-150 | the instance shows the fallback exactly when it has failed, and has an `<img>` in its markup exactly when it is in view and has not failed |
| App.JsRemainder | src/App.jsx:53-61 | JavaScript's remainder agrees with the mathematical one for non-negative operands; for a negative dividend it lies in (-n, 0]; in both cases the dividend is a whole multiple of n plus the remainder |
| App.NextIndex | src/App.jsx:53-55 | from an index in range, next moves one on and wraps the last slide to 0 |
| App.PrevIndex | src/App.jsx:57-61 | from an index in range, previous moves one back and wraps slide 0 to the last |
| App.PrevUndoesNext | src/App.jsx:53-61 | previous undoes next and next undoes previous for every index in range |
| App.NextTimesWithinTurn | src/App.jsx:53-55 | up to n presses of next move k slides on, wrapping past the last slide |
| App.NextTimesCompose | src/App.jsx:53-55 | a presses then b presses of next equal a + b presses |
| App.FullTurn | src/App.jsx:53-55 | n presses of next return every in-range slide to itself |
| App.NextTimesPeriodic | src/App.jsx:53-55 | the slide reached depends on the number of presses only modulo n |
| App.FourNextsReturn | src/App.jsx:14-55 | with the four carousel items, four presses of next return to the starting slide |
| App.Indicators | src/App.jsx:327-339 | there is one indicator per carousel item |
| App.ExactlyOnePrimaryIndicator | src/App.jsx:327-339 | exactly the indicator of the current slide is primary when the slide is in range, and none otherwise |
| App.DefaultPalette | src/App.jsx:6-12 | the default palette has exactly the five keys `lightBg`, `darkBg`, `header`, `footer`, `text` |
| App.ChangeColor | src/App.jsx:75-80 | the changed key maps to the new value, every other key keeps its value, and the keys are the old ones plus the changed one |
| App.PickerChangesKeepKeys | src/App.jsx:75-80 | changes made through the five pickers keep exactly the five palette keys |
| App.UntouchedColorKept | src/App.jsx:75-80 | a colour no change names keeps its value through any sequence of changes |
| App.ChangesToDifferentKeysCommute | src/App.jsx:75-80 | changes to two different keys give the same palette in either order |
| App.AppState.constructor | src/App.jsx:5-12 | the page starts on slide 0 with the default palette |
| App.AppState.NextSlide | src/App.jsx:53-55 | the slide becomes the next index and stays in range; the palette is untouched |
| App.AppState.PrevSlide | src/App.jsx:57-61 | the slide becomes the previous index and stays in range; the palette is untouched |
| App.AppState.GoToSlide | src/App.jsx:63-65 | the slide becomes the given index; an indicator's index keeps it in range |
| App.AppState.HandleColorChange | src/App.jsx:75-80 | the palette becomes the old one with that key changed; the slide is untouched |
| App.AppState.ResetColors | src/App.jsx:82-90 | the palette becomes exactly the default five-key palette |

## Left out

- `preloadImages` creates `<link>` elements in the document head: DOM output, not logic.
- `IMAGE_PATHS`, `quality`, `lazyLoad` and `preloadCritical` are static data the resolver does not read.
- The observer's `rootMargin` of 50px and threshold of 0.01 are applied by the browser; the model receives each entry's `isIntersecting` as an input.
- Creating, disconnecting and cleaning up the IntersectionObserver on unmount is lifecycle plumbing; only "the element is observed" is kept, as the `observing` field.
- The `console.error` message on a failed load, the JSX class names, `alt`, `style` and `onClick` are presentation.
- The rest props are spread onto the `<img>` after its own `onLoad` and `onError`, so an `onLoad` or `onError` among them would replace the component's handlers and leave `isLoaded` or `hasError` unset. This is not modelled: the model always routes load and error to `HandleLoad` and `HandleError`, and the model assumes that no caller passes either prop.
- The App effect that writes the palette into CSS custom properties is a DOM side effect; the page markup, the slide transform and the static carousel and project data are presentation.
- `src/projectImages.js`, `tailwind.config.js` and `vite.config.js` are bundler imports and build configuration, with no logic.
- Props that change while an instance is mounted (the effect re-running on a new `lazy` or `priority`) are not modelled: props are fixed per instance.
- A `src` that is not a string (the component tests `typeof src`) is not modelled: the source is a string.
- React's batching and asynchronous state updates are not modelled: each handler sets a flag to a constant, so the order of batched updates does not change the outcome.
- Widths are natural numbers printed in plain decimal; fractional widths and numbers JavaScript prints in exponent form are not modelled.
- The split of a srcset at `", "` used in the round-trip lemmas is this model's inverse of the join, not a browser's srcset parser.
