# SlidesAI in Dafny

SlidesAI is a browser application that sends free text to a generative model,
receives a slide deck (a title and slides with bullet lines, speaker notes and
an optional image description), optionally asks a second model for one image
per slide, shows the deck, and exports it as a PowerPoint file in one of four
themes. All of its own logic sits in the application component `App.tsx`.
This project models that logic:

- `types.dfy` (module `Types`): the deck, its slides and the four themes
  (`types.ts`), plus `Option` for absent values and `Outcome` for the result
  of an awaited remote call (its value, or the message of the error thrown).
  JavaScript truthiness of an optional string (present and non-empty) is
  the predicate `Truthy`; the exporter's image test is `HasImage`.
- `text.dfy` (module `Text`): the JavaScript whitespace class `\s`, the
  `trim()` used to reject blank input, and the export file name
  `title.replace(/\s+/g, '_') + ".pptx"`. `Sanitize` collapses each maximal
  whitespace run to one `_`; it is proved equal to an independent one-pass
  scanner (`ScanRuns`), whitespace-free, idempotent, order-preserving for the
  other characters, and split by run (`SanitizeCollapsesRun`).
- `export.dfy` (module `Export`): `downloadPPTX`'s projection of a deck and a
  theme onto the shapes handed to the presentation writer. `SlideSpec` and
  `DeckSpec` say what each output slide is. `ExportDeck` is the source's
  loop, which appends one slide at a time, and it is proved against them.
  Lemmas state the per-slide layout contract: background, title box, bullet
  block, image box and notes. Dimensions are the datatype `Dim` (inches or
  percent). Nothing is computed from them.
- `session.dfy` (module `Session`): the component's state as the class `App`,
  with fields `inputText`, `isGenerating`, `data`, `currentTheme`,
  `activeSlideIndex`, `error` and `generatingImages`. Each handler is a
  method whose `modifies` clause names exactly the fields its setters touch.
  The two asynchronous handlers are each split at their `await` into a Begin
  step (the guard, the loading flag, the request returned) and a Complete
  step (the remote outcome as a parameter, applied atomically). The
  id-keyed image update `AttachImage`, the `find` lookup `FindSlide` and the
  navigation clamps `PrevIndex`/`NextIndex` are functions with their own
  lemmas. `App.Valid()` is the invariant that the active index lies on a slide
  whenever the deck has slides; every handler preserves it.

Behaviour of the code worth knowing before reading the model:

- Late image after regeneration. The image completion matches on slide `id`
  alone (App.tsx:80-85). Nothing checks that the deck is still the one the
  request was made for, so a late image lands on the slide of a new deck that
  reuses the id. `CompleteImage` and the scenario method
  `LateImageAfterRegeneration` state this.
- Export without a precondition. `downloadPPTX` requires neither a non-empty
  slide list nor a non-empty title: an empty deck exports zero slides, and an
  empty title gives the file name `.pptx`. Without a deck, it does nothing.
- No theme failure. The theme is a closed set of four values. There is no
  unknown-theme failure path.
- Trimmed input is only the guard. The generation request carries the input as
  typed, not the trimmed text (App.tsx:54, 59).

## Model

| member | source | states |
|---|---|---|
| `Text.IsWs` | App.tsx:54 | a character counts as whitespace, for `trim()` and for `\s` in the file-name pattern at App.tsx:174, exactly when it is in the explicit 25-character table `WhiteSpace`; the separator `_` is never whitespace |
| `Text.Trim` | App.tsx:54 | the trimmed text is never longer than the input and neither starts nor ends with whitespace |
| `Text.TrimCutsOnlyWs` | App.tsx:54 | `trim()` cuts whitespace only: the result equals the input character for character from the end of its leading whitespace on, and everything before and after it is whitespace |
| `Text.TrimEmptyIffAllWs` | App.tsx:54 | the input is rejected as blank (`!inputText.trim()`) exactly when every character is whitespace, empty input included |
| `Text.Sanitize` | App.tsx:174 | the sanitized title is never longer than the title and contains no whitespace |
| `Text.FileName` | App.tsx:174 | the file name is the sanitized title followed by `.pptx` and contains no whitespace |
| `Text.SanitizeMatchesScan` | App.tsx:174 | run collapsing equals a one-pass scan that emits one `_` on entering each whitespace run and nothing for the rest of the run |
| `Text.SanitizeCollapsesRun` | App.tsx:174 | a maximal whitespace run between two parts becomes exactly one `_`, and the parts are sanitized independently |
| `Text.SanitizeAppend` | App.tsx:174 | sanitizing splits at any point after a non-whitespace character, because no run crosses it |
| `Text.SanitizeNoWsIdentity` | App.tsx:174 | a title without whitespace is left exactly as it is |
| `Text.SanitizeIdempotent` | App.tsx:174 | re-sanitizing the stem changes nothing |
| `Text.SanitizeKeepsVisible` | App.tsx:174 | the characters that are neither whitespace nor `_` keep their order; nothing is added or lost |
| `Text.QuarterlyPlanFileName` | App.tsx:174 | "Q1  Plan" gives "Q1_Plan.pptx" |
| `Export.ThemeColors` | App.tsx:122-127 | the four-theme colour table; every colour is six lower-case hex digits and each theme's text colour differs from its background |
| `Export.TitleFont` | App.tsx:143 | the title font is Georgia exactly for the elegant theme and Arial exactly for the others |
| `Export.SlideSpec` | App.tsx:131-170 | one output slide per deck slide: three shapes with a generated image and two without, the title box first and the bullet block second |
| `Export.DeckSpec` | App.tsx:118-171 | the presentation is 16:9 and carries the deck title, with one output slide per deck slide, in deck order, each the `SlideSpec` of its slide |
| `Export.BulletRuns` | App.tsx:146-149 | one bullet run per content line, with the same text in the same order; each is a bullet in the given colour at 18pt with margin 5 |
| `Export.ExportDeck` | App.tsx:115-171 | without a deck, no presentation. Otherwise: a 16:9 presentation titled with the deck title, with exactly one output slide per deck slide, in deck order, each as `SlideSpec` prescribes |
| `Export.SlideBackgroundAndNotes` | App.tsx:129-170 | each output slide is filled with the theme's `bg` colour from the four-entry table and carries the speaker notes verbatim |
| `Export.SlideTitleBox` | App.tsx:135-144 | the first shape is the title box: x 0.5, y 0.5, w 90%, h 1, 36pt, bold, theme text colour; Georgia if and only if the theme is elegant, otherwise Arial |
| `Export.SlideBulletBox` | App.tsx:146-158 | the second shape is the bullet block: one bullet per content line as in `BulletRuns`, at x 0.5, y 1.8, h 3, top-aligned, in Arial; 50% wide if and only if the slide has a generated image, 90% wide if and only if it has none |
| `Export.SlideImageBox` | App.tsx:160-168 | an image box exists if and only if the slide has a generated image; it is the third and last shape, carries that exact data and sits at x 55%, y 1.8, w 40%, h 3 |
| `Export.QuarterlyPlanExport` | App.tsx:115-171 | the deck "Q1 Plan" with one slide in the minimal theme exports one slide: background `f8fafc`, notes "n1", two bullets in the 90% block and no image box |
| `Session.FindSlide` | App.tsx:72 | the result is absent if and only if no slide has the id; otherwise it is the first slide with that id |
| `Session.AttachImage` | App.tsx:80-85 | length and order are kept, and no field but the image changes; slides with the id get the image, and every other slide keeps its own |
| `Session.AttachImageMissingId` | App.tsx:80-85 | an image for an id the deck does not contain leaves the slides unchanged |
| `Session.AttachImageCommutes` | App.tsx:78-86 | completions for two different ids give the same deck in either order |
| `Session.AttachImageLastWins` | App.tsx:80-85 | of two completions for the same id, the later image is the one kept |
| `Session.PrevIndex` | App.tsx:301 | the previous arrow never goes below 0 and otherwise steps back exactly one |
| `Session.NextIndex` | App.tsx:314 | the next arrow never goes past the last slide, steps on exactly one when there is a next slide, stays on the last slide when there is none, and keeps an index that lies on a slide on a slide |
| `Session.NavigationInRange` | App.tsx:301-314 | on a deck with at least one slide, both arrows keep the index in `[0, len)`, the previous arrow stays on the first slide and the next arrow on the last, and away from the ends each arrow undoes the other |
| `Session.App.constructor` | App.tsx:45-51 | the initial state: empty input, no deck, corporate theme, index 0, no error, nothing loading |
| `Session.App.SetInput` | App.tsx:227 | typing replaces the input text and nothing else |
| `Session.App.SelectTheme` | App.tsx:265 | selecting a theme replaces the current theme and nothing else |
| `Session.App.BeginGenerate` | App.tsx:53-57 | whitespace-only input sends no request and changes nothing. Otherwise the loading flag rises, the error clears and the untrimmed input is the request |
| `Session.App.CompleteGenerate` | App.tsx:58-66 | success replaces the deck wholesale and sets the index to 0. Failure keeps the deck and index and records the message, or the default one if it is empty. The loading flag ends false on both paths |
| `Session.App.BeginImage` | App.tsx:69-75 | a request is made exactly when there is a deck, a slide with the id, and a non-empty description on the first such slide. It carries that description and flags the id as loading. Otherwise nothing changes |
| `Session.App.CompleteImage` | App.tsx:76-92 | success applies `AttachImage` to the deck current at completion, and leaves a missing deck missing. Failure keeps the deck and records the image error. The id's loading flag ends false |
| `Session.App.PreviousSlide` | App.tsx:301 | the index becomes `PrevIndex` of the old one; the invariant holds |
| `Session.App.NextSlide` | App.tsx:314 | the index becomes `NextIndex` of the old one and the slide count; the invariant holds |
| `Session.App.SelectSlide` | App.tsx:343 | a thumbnail click makes that slide active |
| `Session.App.Download` | App.tsx:115-178 | without a deck, nothing. Otherwise the file is `DeckSpec` of the deck and current theme, named `FileName` of the deck title. A failed write exposes no file and records the export error. The deck is never written |
| `Session.LateImageAfterRegeneration` | App.tsx:53-93 | an image requested for slide "s1" and completed after a regeneration whose deck reuses "s1" lands on the new deck's slide; the new deck's other slide is untouched |

## Left out

- The two remote calls (`services/geminiService.ts`): the text-structuring request, the parsing of its JSON reply, and the image request. They are external and not verifiable. Their outcomes are the `Outcome` parameters of `CompleteGenerate` and `CompleteImage`. The prompt prefix the image service adds is not modelled.
- The presentation writer library and `writeFile`: the binary PPTX container is produced by a library that is not part of this model. The model stops at the list of shapes handed to it. The write's success is the parameter `writeSucceeded` of `Download`.
- Rendering: all JSX, `components/SlidePreview.tsx`, animation, the Tailwind class tables of `constants.ts`, and the placeholder image. The disabled state of buttons is a rendering concern. The clamps make the arrows' disabled states redundant for the index.
- Interleaving inside one step: React's batching of `setState` and the scheduling of promises are not modelled. Each half of a handler, before and after its `await`, is one atomic transition. Any number of other transitions may run between the halves.
- `handleSample`'s literal text and `console.error` logging.
- Character encoding: titles are sequences of Unicode scalar values, not UTF-16 code units. Every character in `\s` is a single code unit, so whitespace is recognised the same way.
- Slide count: a successful generation may return a deck with no slides. Nothing in the component guards against that. The invariant `App.Valid()` is only stated for decks with at least one slide.
