# Post Designer — a Dafny model

Post Designer is a browser application. The user picks a social-media
platform (Instagram, Facebook, LinkedIn or Twitter(X)), types a username,
chooses a square, landscape or portrait aspect ratio and uploads a photo. The
user then crops the photo and generates a mockup of a post on that platform,
which can be downloaded as a PNG. A caption and hashtags come from settings
that persist in the browser's local storage. A separate service sends a photo
to a generative-image API and takes back a "mosaic" version.

This project models four parts of it:

- `types.dfy` (module `Types`): the `Platform` and `SourceAspectRatio`
  enumerations, the `PostInputs` record and the per-platform width table.
- `app.dfy` (module `App`): the editor. Its state record is the class
  `Editor`, with one method per event handler: choose a platform, edit the
  username, choose an aspect ratio, load a photo, complete a crop, generate
  (validation, then success or failure), go back to cropping, download, edit
  the settings and reset them. The predicates on `Editor` say which panel is
  shown. Pure functions give the crop aspect ratios, the size of the cropped
  output and the name of the downloaded file.
- `mockup.dfy` (module `Mockup`): the post mockup as a sequence of blocks
  (header, caption, picture, action bar). It also holds the header name
  fallbacks, the Twitter handle and the CSS ratio strings. A small reader for
  CSS ratios gives those strings their exact rational values.
- `mosaic_service.dfy` (module `MosaicService`): reads the MIME type and the
  payload out of a `data:` URL. This is a simplified form of section 3 of
  RFC 2397, with `image/png` as the default media type instead of the RFC's
  default. It also searches the API response for the first inline image.
- `strings.dfy` and `options.dfy` are helpers. They model JavaScript's
  `split` on one character, decimal printing, ASCII `toLowerCase` and
  `replace(/\s/g, '')`, and they define `Option` and `Result` (`None`
  stands for `null` and `undefined`). `Join` and `IndexOf` are not used by
  the application; they are helper definitions for stating what `split`
  returns.

JavaScript truthiness is written out. A string-or-null is true only when it is
present and non-empty (`App.Truthy`). This is why an empty stored caption
falls back to the built-in one.

Four behaviours of the code worth stating plainly:

- The cropped output height is not rounded. The canvas truncates it to whole
  pixels; the model keeps the exact quotient (see "Left out").
- A stored empty caption or empty hashtags do not survive a reload. The
  built-in text comes back instead.
- Generating without a photo or a crop region does change state: it sets the
  error message.
- The service's error text is "Failed to generate mosaic image".

## Model

| member | source | states |
|---|---|---|
| `Types.ConfigFor` | types.ts:26-31 | The width table is total over the four platforms, and every width is positive and at most 580. |
| `Types.EnumerationsComplete` | types.ts:2-13 | `Platform` lists exactly four values and `SourceAspectRatio` exactly three. Each value appears once, in declaration order, as `Object.values` yields them. |
| `Types.PlatformNamesDistinct` | types.ts:2-7 | The four platform string values are pairwise distinct. |
| `Types.PlatformNameHasNoDash` | types.ts:2-7 | No platform string value contains a dash. |
| `Mockup.DisplayName` | components/PlatformMockup.tsx:17-78 | The header name is never empty. It is the username when one is given, and otherwise the platform's fallback: `username` for Instagram, `Username` for Facebook and Twitter, `Your Name` for LinkedIn. |
| `Mockup.TwitterHandle` | components/PlatformMockup.tsx:71 | The handle is never empty and has no whitespace and no upper-case ASCII letter. It is `user` when the username is blank, and otherwise the username lower-cased with its whitespace removed. |
| `Mockup.HandleFallsBackOnBlank` | components/PlatformMockup.tsx:71 | Lower-casing and removing whitespace leave nothing exactly when the username is whitespace only. |
| `Mockup.TwitterHandleIdempotent` | components/PlatformMockup.tsx:71 | Deriving a handle from a handle returns it unchanged. |
| `Mockup.Render` | components/PlatformMockup.tsx:166-218 | The container is as wide as the platform's configured width. The header is the first block and the action bar the last. The header shows the username or the fallback, and it carries a handle on Twitter only. |
| `Mockup.PictureAppearsOnce` | components/PlatformMockup.tsx:180-213 | Every layout contains exactly one picture block. That block shows the given image at the display ratio of the selected aspect ratio. |
| `Mockup.CaptionPlacement` | components/PlatformMockup.tsx:81-213 | On Twitter, Facebook and LinkedIn a caption-and-hashtags block comes before the picture. On Instagram there is no such block: the action bar below the picture carries the author's name, the caption and the hashtags. |
| `Mockup.ParseFraction` | components/PlatformMockup.tsx:160 | A CSS number of the form digits, point, digits reads as the matching decimal fraction. |
| `Mockup.RatioOfNumbers` | components/PlatformMockup.tsx:157-164 | A CSS ratio `a / b` reads as the exact quotient of its two numbers. |
| `App.AspectNumeric` | App.tsx:122-129 | The cropper's width-to-height ratio is 1, 1.91 or 0.8, so it always lies between 0.8 and 1.91. |
| `App.DisplayRatioMatchesCrop` | components/PlatformMockup.tsx:157-164 | The mockup's CSS ratio string (`1 / 1`, `1.91 / 1`, `4 / 5`) has exactly the rational value the cropper is locked to, for every aspect ratio. |
| `App.TargetSize` | App.tsx:75-79 | The output is 1024 pixels wide, and its height-to-width ratio equals the crop's. |
| `App.TargetKeepsAspect` | App.tsx:76-79 | A crop taken at the selected aspect ratio yields an output at that same aspect ratio. |
| `App.DownloadName` | App.tsx:114 | The file name starts with `Mockup-` and ends with `.png`. |
| `App.DownloadNameInjective` | App.tsx:114 | Two downloads with different platforms or different timestamps get different file names. |
| `App.LoadSetting` | App.tsx:19-20 | A stored non-empty value is used as is. A missing or empty value gives the built-in default. |
| `App.ReloadedCaption` | App.tsx:19-38 | After a caption edit, an editor started from the same storage shows that caption, or the built-in caption if the edit was empty. |
| `App.ViewsConsistent` | App.tsx:297-395 | The cropper and the mockup are never shown together. The welcome panel excludes every other panel, and some panel is always shown. The generate button is disabled under the welcome panel and the overlay, and enabled while the cropper is shown. |
| `App.Editor.constructor` | App.tsx:11-42 | The initial state: Instagram, empty username, no photo, square, zoom 1 and crop (0,0). The settings are read from storage with built-in fallbacks and written back. |
| `App.Editor.SelectPlatform` | App.tsx:219 | Only `inputs.platform` changes; username, photo, aspect ratio, final image and the other fields are kept. |
| `App.Editor.EditUsername` | App.tsx:240 | Only `inputs.username` changes. |
| `App.Editor.SelectAspectRatio` | App.tsx:252 | Sets `inputs.aspectRatio` and clears the final image; nothing else changes. |
| `App.Editor.HandleFileChange` | App.tsx:48-60 | With no file chosen, nothing changes. Otherwise the photo becomes the reader's result and the final image is cleared. Zoom resets to 1 and the crop to (0,0). Platform, username, aspect ratio and crop region are kept. |
| `App.Editor.CropComplete` | App.tsx:44-46 | Stores the reported crop region and changes nothing else. |
| `App.Editor.StartGenerate` | App.tsx:88-94 | Without a truthy photo or a crop region, it sets the "Please upload and adjust your photo first." error and changes nothing else. Otherwise it sets the busy flag and clears the error. |
| `App.Editor.FinishGenerate` | App.tsx:95-104 | A cropped image replaces the final image. A failure sets "Failed to process image." and keeps the old final image. Either way the busy flag ends cleared. |
| `App.Editor.Generate` | App.tsx:88-105 | The whole handler. Validation failure changes only the error. A success replaces the final image, clears the error and leaves the mockup, not the cropper, on screen. A failure keeps the image and sets the error. The busy flag ends cleared. |
| `App.Editor.BackToCrop` | App.tsx:372 | Clears the final image; with a photo and no work in progress, the cropper is shown again. |
| `App.Editor.Download` | App.tsx:107-120 | Without a rendered mockup, nothing happens. A failed export sets "Export failed. Try again.". A successful one downloads `Mockup-<platform>-<ms>.png`. |
| `App.Editor.EditCaption` | App.tsx:36-38 | Sets the caption and writes it to storage under `pmw_caption`. |
| `App.Editor.EditHashtags` | App.tsx:40-42 | Sets the hashtags and writes them to storage under `pmw_hashtags`. |
| `App.Editor.ResetDefaults` | App.tsx:175 | Sets caption and hashtags to the built-in texts and stores both. |
| `App.Editor.CurrentMockup` | App.tsx:359-370 | A mockup is rendered exactly when the final image is truthy, at the current platform's configured width. |
| `MosaicService.MimeTypeOf` | services/geminiService.ts:8 | The MIME type is never empty. It is the text between the first `:` and the next `:` within the part before the first `;`, or `image/png` when that text is missing or empty. |
| `MosaicService.DataOf` | services/geminiService.ts:9 | The payload is the text between the first and the second comma. It is absent when the URL has no comma. |
| `MosaicService.DataUrlRoundTrip` | services/geminiService.ts:8-9 | `data:<m>;base64,<d>` reads back as `(m, d)` for every non-empty `m` free of `:`, `;` and `,`, and every `d` free of `,`. |
| `MosaicService.EmptyCandidatesEscapeGuard` | services/geminiService.ts:29 | As written, a response with an empty candidate list gets past the guard and ends in a TypeError, not the service's error. |
| `MosaicService.FirstCandidateParts` | services/geminiService.ts:29 | The corrected guard: parts are found exactly when the first candidate has content with parts. Every other case is the service's own error. |
| `MosaicService.GuardsAgreeOnNonEmpty` | services/geminiService.ts:29 | The written and the corrected guards agree on every response except an empty candidate list. |
| `MosaicService.FirstInline` | services/geminiService.ts:30-34 | Finds the inline data of the first part that has some. Every earlier part has none, and the result is absent exactly when no part has inline data. |
| `MosaicService.ExtractImage` | services/geminiService.ts:29-37 | The loop returns exactly what `MosaicResult` specifies for the response. |
| `MosaicService.MosaicResultSpec` | services/geminiService.ts:29-37 | The service succeeds exactly when the first candidate has a part with inline data. It then returns `data:image/png;base64,` followed by that first part's data. Otherwise it fails with "Failed to generate mosaic image". |
| `MosaicService.OnlyFirstCandidateMatters` | services/geminiService.ts:29-30 | Two responses with the same first candidate give the same result, whatever their other candidates hold. |
| `MosaicService.ResultReadsBack` | services/geminiService.ts:32 | The returned data URL reads back through the request parser as `image/png` with the same payload. |
| `Strings.Split` | services/geminiService.ts:8-9 | `split` returns at least one field. No field contains the separator, and joining the fields with it gives back the input. |
| `Strings.SplitJoin` | services/geminiService.ts:8-9 | `split` inverts `join` on separator-free fields. |
| `Strings.SplitFields` | services/geminiService.ts:8-9 | Field 0 is the text before the first separator. Field 1, when there is a separator, is the text between the first and the second. |
| `Strings.NatToString` | App.tsx:114 | The printed timestamp is a non-empty string of digits with no leading zero, and it reads back as the number. |
| `Strings.RemoveSpaces` | components/PlatformMockup.tsx:71 | The result has no whitespace and only characters of the input. It is empty exactly when the input is all whitespace, and it is the input itself when the input has none. |
| `Strings.RemoveSpacesSingle` | components/PlatformMockup.tsx:71 | One character is dropped exactly when it is whitespace and kept otherwise. |
| `Strings.RemoveSpacesAppend` | components/PlatformMockup.tsx:71 | Removing whitespace from `a + b` gives the result for `a` followed by the result for `b`. With the one-character case, this says every non-whitespace character is kept, in order. |
| `Strings.ToLower` | components/PlatformMockup.tsx:71 | The length is kept and no ASCII capital is left. Every other character is unchanged, and each capital becomes the small letter at the same place in the alphabet. |

## Left out

- Decoding the photo, drawing on a canvas, JPEG encoding at quality 0.95 and the no-2d-context branch (App.tsx:62-86) are not modelled. Their outcome is a parameter of `FinishGenerate` and `Generate`: the cropped data URL, or `None` for a failure.
- Truncating the canvas size to integer pixels, and the floating-point forms of 1.91 and 0.8, are not modelled. All sizes and ratios are exact reals.
- App.TargetSize: requires a positive crop width. With a zero width the source computes a non-finite height, which the model does not represent. The cropper never reports a zero width.
- Rasterising the mockup with html2canvas (2x scale, white background, PNG) is not modelled. Its success is the `exported` parameter of `Download`, and `Date.now()` is its `now` parameter.
- FileReader is not modelled. Its result is the `readResult` parameter of `HandleFileChange`, and `None` stands for the `null` result of a failed read.
- Local storage is modelled as the `storage` map of `Editor`. The browser's storage limits and exceptions are not.
- The 600 ms wait inside generate is not modelled. Generate is split at that point into `StartGenerate` and `FinishGenerate`, and no other events are modelled as happening in between. The full-screen overlay blocks input during that time.
- The cropper widget's pan and zoom gestures, and the plain setters wired to it (`onCropChange`, `onZoomChange`, the zoom slider; App.tsx:345-353), are not modelled. Only the region stored by `onCropComplete` is.
- The settings dialog's open and closed flag (App.tsx:23, 134-190) is not modelled because it is presentation only.
- The generative-image client is not modelled: the model name, the prompt, the API key and the network call (services/geminiService.ts:6, 11-26). The response is an input value, and `RequestPayload` is what the request would carry.
- JSX markup, CSS classes, icons, avatar URLs, the static like and comment counts and the `@` and `· 1m` decorations around the Twitter handle are not modelled. On Twitter the caption and the picture share one indented container, which the block sequence flattens.
- `ToLower` maps ASCII letters only. Full Unicode case mapping is not modelled. `\s` is modelled with its complete character set.
- JavaScript strings are UTF-16 code units, but the model's characters are Unicode scalar values.
- The `default` branches of `getAspectNumeric` and `getImageAspectRatio` cannot be reached with the enumeration's three values, so they are not modelled.
- vite.config.ts and the `ICONS` table in constants.tsx are not modelled: they are build configuration and markup.

## Findings

| source | as written | input that shows it | evidently intended | confidence | as-written member | corrected member |
|---|---|---|---|---|---|---|
| services/geminiService.ts:29 | `response.candidates && response.candidates[0].content` accepts an empty candidate array, which is truthy. Reading `.content` of `undefined` then throws a TypeError. | a response whose `candidates` is `[]` | fail with "Failed to generate mosaic image", as for a missing candidate list | medium; not executed | `MosaicService.EmptyCandidatesEscapeGuard` | `MosaicService.FirstCandidateParts` |
