# Palette generator page — a Dafny model

This project models the client-side core of a small colour-palette generator page
(`app/page.tsx`). It covers three parts:

- the colour formatter, which turns a random integer into a `#rrggbb` string;
- the palette of five swatches, each a colour and a lock flag, with its seeding,
  regeneration and lock toggling;
- the "describe palette" handler, which builds a prompt from the colours and posts
  it to a proxy. It checks the shape of the JSON reply
  (`candidates[0].content.parts[0].text`) and settles into a description or an
  error message, switching a loading flag around the round trip.

Modules, leaves first:

- `Wrappers` (`wrappers.dfy`): `Option`, standing for JavaScript's `null` / `undefined`.
- `HexColor` (`hex_color.dfy`): `n.toString(16).padStart(6, "0")` behind a `#`. Also
  parsing a colour back, and the proof that the two are inverse on the generator's range.
- `PaletteStore` (`palette_store.dfy`): the `Swatch` record and the pure palette
  transformations the handlers apply.
- `JsValue` (`js_value.dfy`): JSON values, plus the bits of JavaScript semantics the
  response check relies on: property reads, `[0]`, truthiness and `> 0`.
- `Gemini` (`gemini.dfy`): the response check as written (`Extract`). Also a typed view of
  the documented reply (`FirstText`) and the lemma that the two agree.
- `DescribeClient` (`describe_client.dfy`): the prompt, the request body, the three
  messages, and `Settle`, the `try` / `catch` outcome of a round trip.
- `PalettePage` (`palette_page.dfy`): the class `PaletteGenerator` holding the page's
  state fields (`palette`, `llmDescription`, `isLoadingLLM`, `llmError`, `copiedColor`).
  Its methods are the handlers. `Valid()` is the invariant every handler keeps: the
  palette is empty or has five well-formed swatches, and a description and an error
  are never both non-null.

`describePalette` is an `async` function. It is modelled as `BeginDescribe` (everything
before the `await`) and `ResolveDescribe` (everything after it), so other handlers can
run in between. `DescribePalette` composes the two for the case where nothing runs in
between. The button's disable condition, `isLoadingLLM || palette.length === 0`, is the
predicate `DescribeDisabled`. `BeginDescribe` leaves it true whenever it sends a
request. No other handler clears the loading flag or empties the palette, so the
button stays disabled until `ResolveDescribe` runs.

Behaviour of the code worth knowing:

- The generator multiplies by 16777215, so it yields `0 .. 16777214` and never
  `#ffffff` (`HexColor.WhiteIsMaximal`, `HexColor.RandomHexColor`).
- `JSON.parse` failures land in the same `catch` branch as network failures, with the
  same message. There is no separate parse-error state. The parsed value is stored
  without checking its shape, so `llmDescription` is any JSON value, and `Null` means
  "no description".
- A reply whose `candidates[0]` is `null` or missing makes the condition at
  app/page.tsx:128 throw a `TypeError` (`Gemini.ExtractNullCandidate`). A reply that
  passes the condition but whose `parts[0]` is `null` makes the read of `.text` at
  app/page.tsx:132 throw. Both get the network-failure message, not the
  "unexpected structure" one.
- A comment at app/page.tsx:50 says that an empty palette gets all-new colours on
  regeneration. The code does not do that: mapping over an empty palette yields an
  empty palette (`PaletteStore.RegeneratedEmpty`). Only the mount-time
  `generateInitialPalette` seeds.
- Colours are always lower case.

## Model

| member | source | states |
|---|---|---|
| `HexColor.ToHex` | app/page.tsx:8-9 | `n.toString(16)` is a non-empty string of lower-case hex digits, with no leading zero unless it is `"0"`, and it denotes `n` |
| `HexColor.PaddedHexIsDigits` | app/page.tsx:9-10 | for `n < 16^k`, zero-padding `toString(16)` to `k` characters gives exactly the `k`-digit base-16 form of `n` |
| `HexColor.RandomHexColor` | app/page.tsx:5-12 | for every `0 <= n < 16777215` the colour is `#` plus six lower-case hex digits; parsing it gives back `n`; it is never `#ffffff` |
| `HexColor.ParseColor` | app/page.tsx:5-12 | reading a colour back succeeds exactly on `#` plus six lower-case hex digits, with a value below `16^6` |
| `HexColor.WhiteIsMaximal` | app/page.tsx:8 | `#ffffff` denotes 16777215, the one six-digit value the multiplier `16777215` excludes |
| `HexColor.ColorOnto` | app/page.tsx:5-12 | every well-formed colour other than `#ffffff` is produced, by exactly the integer it denotes |
| `PaletteStore.InitialPalette` | app/page.tsx:37-40 | exactly five swatches, all unlocked, swatch `i` holding the colour of the `i`-th drawn integer |
| `PaletteStore.Initialized` | app/page.tsx:35-43 | an empty palette becomes five unlocked well-formed swatches; a non-empty one is returned unchanged |
| `PaletteStore.InitializedIdempotent` | app/page.tsx:35-43 | seeding a second time changes nothing |
| `PaletteStore.Regenerate` | app/page.tsx:48 | a locked swatch is kept as it is; an unlocked one keeps its flag and takes the drawn colour |
| `PaletteStore.Regenerated` | app/page.tsx:47-49 | same length, same lock flags, every locked swatch identical, every unlocked swatch recoloured from its draw |
| `PaletteStore.RegeneratedEmpty` | app/page.tsx:47-51 | regenerating an empty palette leaves it empty; regeneration never seeds |
| `PaletteStore.RegeneratedWellFormed` | app/page.tsx:47-49 | regeneration keeps every colour a well-formed `#rrggbb` |
| `PaletteStore.Toggled` | app/page.tsx:56-60 | flips the lock at `index`, keeps that swatch's colour, leaves every other swatch and the length unchanged |
| `PaletteStore.ToggledTwice` | app/page.tsx:56-60 | toggling the same lock twice restores the palette |
| `PaletteStore.ToggledWellFormed` | app/page.tsx:56-60 | toggling keeps every colour well-formed |
| `JsValue.Field` | app/page.tsx:126-132 | a named property read: present exactly when an object has that key, and then that key's value; an array's `length` is its element count |
| `JsValue.Index0` | app/page.tsx:128-132 | `[0]` on an array is defined exactly when the array is non-empty, and is its first element |
| `Gemini.Extract` | app/page.tsx:125-132 | a `null` reply throws; a non-object reply is malformed; a text is only extracted from an object that has `candidates` (the full path is stated by `ExtractConforming`) |
| `Gemini.FirstText` | app/page.tsx:125-132 | a text is extracted exactly when candidates are present and non-empty, the first has content, and its parts are present and non-empty; the text is that of the first part of the first candidate; it never throws |
| `Gemini.ExtractTyped` | app/page.tsx:125-132 | on a reply encoded from the typed view with no other keys, the JavaScript check gives the same result as `FirstText` |
| `Gemini.ExtractConforming` | app/page.tsx:125-132 | on every JSON reply the typed view describes, whatever other keys it carries at each level, the JavaScript check gives the same result as `FirstText` |
| `Gemini.ExtractUpstreamReply` | app/page.tsx:125-132 | a reply carrying `role`, `finishReason`, `usageMetadata` and `modelVersion` beside the path yields its text |
| `Gemini.ExtractDocumented` | app/page.tsx:125-132 | the documented one-candidate, one-part reply yields its text |
| `Gemini.ExtractNoCandidates` | app/page.tsx:125-136 | `{candidates: []}`, or an object without `candidates` such as an error body, is malformed |
| `Gemini.ExtractNullCandidate` | app/page.tsx:128 | a `null` first candidate makes the check throw |
| `DescribeClient.Join` | app/page.tsx:84-86 | joining no strings gives the empty string |
| `DescribeClient.Colors` | app/page.tsx:82-83 | the colour list has one entry per swatch, in palette order |
| `DescribeClient.JoinColorsLayout` | app/page.tsx:82-86 | seven-character colours joined by `", "`: colour `i` sits at `[9i, 9i+7)`, a separator follows every colour but the last, total length `9n-2` |
| `DescribeClient.PromptListsColors` | app/page.tsx:82-86 | the prompt holds every swatch's colour, in palette order, right after the fixed opening text |
| `DescribeClient.RequestCarriesPrompt` | app/page.tsx:88-114 | the payload's `contents` is a single `user` turn whose `parts` is exactly one part with the prompt as its text, and `generationConfig.responseMimeType` is `application/json` |
| `DescribeClient.Settle` | app/page.tsx:116-141 | a description exactly when a reply passed the check, had a text, and the text parsed, and then the description is the parsed text; the malformed message exactly when the check failed; every other failure gets the call-failed message |
| `DescribeClient.SettleDocumented` | app/page.tsx:125-134 | the documented reply is described by whatever its text parses to, or else reported as a failed call |
| `DescribeClient.SettleMalformedReply` | app/page.tsx:125-137 | a typed reply that fails the check is reported with the malformed message |
| `PalettePage.PaletteGenerator.constructor` | app/page.tsx:17-33 | the initial state: empty palette, no description, not loading, no error, nothing copied |
| `PalettePage.PaletteGenerator.GenerateInitialPalette` | app/page.tsx:35-43 | seeds five unlocked swatches only into an empty palette; changes nothing else |
| `PalettePage.PaletteGenerator.HandleGeneratePalette` | app/page.tsx:46-54 | recolours only the unlocked swatches; clears description and error; loading flag and copied colour unchanged |
| `PalettePage.PaletteGenerator.ToggleLock` | app/page.tsx:56-60 | flips one lock and keeps that swatch's colour; every other swatch and field unchanged |
| `PalettePage.PaletteGenerator.HandleCopy` | app/page.tsx:62-64 | `copiedColor` becomes the copied colour; nothing else changes |
| `PalettePage.PaletteGenerator.BeginDescribe` | app/page.tsx:72-121 | on an empty palette: sets the error only, leaves loading and description alone, and makes no request. Otherwise: loading on, description and error cleared, the describe button disabled, and the body posted carries the prompt of the current palette |
| `PalettePage.PaletteGenerator.ResolveDescribe` | app/page.tsx:123-144 | loading ends; the description or the error is set as `Settle` decides, never both |
| `PalettePage.PaletteGenerator.DescribePalette` | app/page.tsx:72-145 | the whole handler: the empty-palette guard, then after any outcome loading is off and description and error are not both non-null |

## Left out

- `Math.random()` and the float product are not modelled. Each call to the generator takes its integer result `n` as a parameter (`0 <= n < 16777215`).
- `PaletteStore.Regenerated`: the caller supplies one draw per position, and locked positions ignore theirs. The source draws only for unlocked swatches, in order; which random number lands where is not captured.
- The `fetch` call, `response.json()` and `JSON.parse` are inputs, not code. The first two become a `FetchOutcome` (a JSON value, or a rejection). `JSON.parse` becomes a function giving the parsed value or `None`. JSON text parsing is not modelled.
- `console.log` / `console.error` output is not modelled.
- `app/api/describePalette/route.ts` is not part of this model. It is a pass-through proxy: it reads the API key from the environment, forwards the payload with `fetch`, logs the reply, and always answers with status 200. It has no logic beyond network I/O.
- The clipboard write and the `setTimeout` that resets `copiedColor` after two seconds are not modelled. These are an external capability and a timer. An earlier timer is never cancelled, so it can clear a later copy's indicator early; that is not captured either.
- `PalettePage.PaletteGenerator.ResolveDescribe` requires a request in flight (`isLoadingLLM`). Overlapping describe calls are not modelled, because the button is disabled while loading. The method alone would let a second call start before the first resolves.
- `toggleLock` mutates the swatch object in place. That object is shared with the previous state array. The model replaces the swatch by value, so the aliasing with the old state is not captured; nothing else holds the old array.
- React batches the `set…` calls, and each handler reads the state of the render it was created in. The model applies the updates to the fields in order, which gives the same final state for each handler.
- `JsValue.Positive`: JavaScript coerces a `length` that is a string, an array or an object to a number before `> 0`. The model treats such a `length` as not positive. JSON numbers are integers here; fractions are not modelled.
- Prototype properties of objects, arrays and strings are not modelled. None of the names the check reads (`candidates`, `content`, `parts`, `text`, `length`, `0`) is one.
- The `useEffect` mount call appears only in the example method `PalettePage.Session`. JSX rendering and styling are not modelled, and neither is a crash from rendering a description of the wrong shape.
