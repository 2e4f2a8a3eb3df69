# Menu extractor: a verified model of the menu pipeline

"Extracteur de menu IA" turns a photographed restaurant menu into an editable
HTML fragment. This project models the logic between the AI call and the
browser, and proves properties of that model:

- **Response normaliser** (`GeminiService`).
  - Strips an optional Markdown code fence from the model's answer.
  - Checks the two top-level fields, coerces every category and item field to
    a string with fixed French defaults, and stamps fresh identifiers.
  - Maps every failure to the message the user sees.
  - The output of `JSON.parse` is an input datatype (`Json`).
- **Identifiers** (`Uuid`). The `uuidv4` template is filled from a stream of
  random nibbles. Both copies of `uuidv4` share this model.
- **Document edits** (`MenuEdits`). The seven edit handlers of the page are
  pure functions on an optional `MenuData`.
- **Page state** (`App`). The page's state is a `Session` class whose fields
  are the page's `useState` values. Each handler or effect is a method proved
  against a pure transition function on a `State` value. The module also
  covers the render-selection rule, the reset and the convert guards, and the
  download filename.
- **HTML renderer** (`HtmlEscape`, `HtmlGenerator`). `escapeHtml` is a chain of
  five replacements; both copies share this model. `generateMenuHtml` is an
  imperative method that appends to its accumulator. It is proved equal to a
  specification written in the same accumulator form, and the structural
  lemmas are proved about that specification.
- **Colours and uploads** (`Hex`, `ColorExtractor`, `ImageUploader`). `toHex`
  writes channel values in hexadecimal, and the upload acceptance rule is a
  size limit plus a MIME whitelist.

Records follow `types.ts` (`Types`). `Text` holds the JavaScript
white-space set and `trim`, `includes`, `substring` and prefix/suffix
helpers. `Wrappers` holds `Option` and `Result`.

Identifiers come from a generator `gen: nat -> Id`, where `gen(k)` is the
`k`-th call of `uuidv4`. `Uuid.Generator` builds one from random draws.
Uniqueness is assumed, never proved: `NormalizedIdsUnique` requires the
identifiers drawn for the one document at hand to be distinct, and the add
lemmas require the new id to be absent. No generator over the finitely many
version-4 strings is injective on all calls, so the hypothesis is about those
draws only.

Where the code and the design intent differ, the model follows the code:

- **Stale results.** A colour extraction or a conversion that completes after
  a new image was chosen still writes its result. The code has no guard that
  discards stale results.
- **Error classification.** The outer handler classifies the message that the
  inner handler wrapped. A response that fails to parse and quotes the words
  `permission denied` within its first 500 characters is therefore reported as
  a permission error (`QuotedKeywordClassifiesFormatError`).

## Model

| member | source | states |
|---|---|---|
| Types.DistinctDocumentIds | extracteur-de-menu-ia/types.ts:2-18 | If all identifiers of a document are distinct in document order, the categories have distinct ids and so do the items within each category. |
| Types.DocumentIdsCover | extracteur-de-menu-ia/types.ts:2-18 | Every category id and every item id occurs in the document's identifier list. |
| Text.Trim | extracteur-de-menu-ia/services/geminiService.ts:69-71 | `trim()` returns a text that is empty or neither starts nor ends with white space. |
| Text.TrimRemovesOnlyWhitespace | extracteur-de-menu-ia/services/geminiService.ts:69-71 | `trim()` returns a contiguous slice of its input, and only white space lies before and after that slice. |
| Text.TrimOfTrimmed | extracteur-de-menu-ia/services/geminiService.ts:69-71 | Trimming a text that is already trimmed changes nothing. |
| Text.Includes | extracteur-de-menu-ia/services/geminiService.ts:114-117 | `includes` holds exactly when the needle occurs at some index. |
| Text.Take | extracteur-de-menu-ia/services/geminiService.ts:109 | `substring(0, n)` is a prefix: exactly the first `n` characters of a longer text, and the whole text otherwise. |
| Hex.HexDigit | extracteur-de-menu-ia/services/geminiService.ts:11 | `v.toString(16)` of a value below 16 is one lower-case hexadecimal digit. |
| Hex.DigitValue | extracteur-de-menu-ia/services/geminiService.ts:11 | Every lower-case hexadecimal digit is the digit of some value below 16. |
| Hex.DigitRoundTrip | extracteur-de-menu-ia/services/geminiService.ts:11 | Reading a digit back gives the value it was written from. |
| Hex.ToBase16 | extracteur-de-menu-ia/utils/colorExtractor.ts:8 | `x.toString(16)` consists of lower-case hexadecimal digits and is never empty. It has one digit exactly when `x < 16`, and it starts with `0` only for 0. |
| Hex.Base16RoundTrip | extracteur-de-menu-ia/utils/colorExtractor.ts:8 | Reading the hexadecimal text of `x` gives `x` back. |
| Hex.LeadingZero | extracteur-de-menu-ia/utils/colorExtractor.ts:9 | A leading `0` does not change the value a hexadecimal text reads as. |
| Uuid.Fill | extracteur-de-menu-ia/App.tsx:13-19 | Filling the template from any draws fits it: `x` becomes a lower-case hex digit, `y` one of `8 9 a b`, and every other character is kept. |
| Uuid.VariantBits | extracteur-de-menu-ia/services/geminiService.ts:10 | `r & 0x3 \| 0x8` lies between 8 and 11. |
| Uuid.FitsTemplateIsFormat | extracteur-de-menu-ia/App.tsx:13-19 | Fitting the template is equivalent to the version-4 format: 36 characters, hyphens at 8, 13, 18 and 23, `4` at 14, one of `8 9 a b` at 19, and lower-case hex elsewhere. |
| Uuid.Uuid4WellFormed | extracteur-de-menu-ia/services/geminiService.ts:7-13 | Every identifier `uuidv4` returns, whatever the random draws, has the version-4 format. |
| Uuid.FillReplays | extracteur-de-menu-ia/App.tsx:13-19 | Replaying the draws read off a fitting string reproduces that string. |
| Uuid.EveryUuidIsGenerated | extracteur-de-menu-ia/App.tsx:13-19 | Every string of the version-4 format is produced by some sequence of draws. |
| Uuid.Generator | extracteur-de-menu-ia/services/geminiService.ts:7-13 | Successive calls of `uuidv4` give only well-formed identifiers. |
| GeminiService.FenceCapture | extracteur-de-menu-ia/services/geminiService.ts:66-67 | The fence pattern matches exactly when the text is at least six characters long and starts and ends with three backticks. |
| GeminiService.JsonText | extracteur-de-menu-ia/services/geminiService.ts:64-72 | The text handed to `JSON.parse` is the fence's capture when the fence matches with a non-empty capture. Otherwise it is the whole text trimmed, including for an empty capture. It is always empty or free of white space at both ends. |
| GeminiService.CaptureOfFenced | extracteur-de-menu-ia/services/geminiService.ts:66-69 | Inside a fence, the capture is the inner text trimmed, with a leading `json` tag dropped. |
| GeminiService.JsonTextOfCapture | extracteur-de-menu-ia/services/geminiService.ts:68-69 | A non-empty capture is what gets parsed. |
| GeminiService.UnfencedTextIsTrimmed | extracteur-de-menu-ia/services/geminiService.ts:70-71 | A text that is not fenced is parsed trimmed. |
| GeminiService.StripJsonFence | extracteur-de-menu-ia/services/geminiService.ts:64-72 | A body in a fence tagged `json`, on lines of its own, is parsed as it is. |
| GeminiService.StripBareFence | extracteur-de-menu-ia/services/geminiService.ts:64-72 | A body in an untagged fence, on lines of its own, is parsed as it is. |
| GeminiService.StringOr | extracteur-de-menu-ia/services/geminiService.ts:89 | `typeof v === 'string' ? v : default` gives the string value or the default. |
| GeminiService.ItemOf | extracteur-de-menu-ia/services/geminiService.ts:96-101 | An item gets the fresh id. Its name, description and price are the string values given, or `Article inconnu`, `""` and `N/A`. Its description is always present. |
| GeminiService.ItemsOf | extracteur-de-menu-ia/services/geminiService.ts:90 | A category's items are its array, or none when `items` is not an array. |
| GeminiService.CategoryCoercion | extracteur-de-menu-ia/services/geminiService.ts:87-103 | A category gets id `gen(next)` and its string name, or `Catégorie inconnue`. It keeps its item count, or has none when `items` is not an array. Item `k` is coerced with id `gen(next + 1 + k)`. |
| GeminiService.CategoryError | extracteur-de-menu-ia/services/geminiService.ts:89-99 | A null category fails on reading `categoryName`, and a null item fails on reading `name`. |
| GeminiService.NormalizeCategories | extracteur-de-menu-ia/services/geminiService.ts:87-104 | Coercion succeeds exactly when no category or item is null. On success it keeps the number of categories. On failure the error is the `TypeError` of a null read. |
| GeminiService.NormalizeAllCons | extracteur-de-menu-ia/services/geminiService.ts:87-104 | Categories are coerced in order. The first draws its ids first, and the rest draw from where it stopped. |
| GeminiService.FirstError | extracteur-de-menu-ia/services/geminiService.ts:87-104 | The first failing category throws a null-read `TypeError`. |
| GeminiService.Draws | extracteur-de-menu-ia/services/geminiService.ts:94-98 | `n` consecutive calls of the generator, in order. |
| GeminiService.NormalizedIdsAreDraws | extracteur-de-menu-ia/services/geminiService.ts:92-98 | A document's ids in order are exactly the consecutive calls of `uuidv4`. Each category's id is drawn before its items' ids. Every id is fresh, and none is taken from the response. |
| GeminiService.NormalizedContentIsValues | extracteur-de-menu-ia/services/geminiService.ts:87-104 | Apart from the ids, the normalised categories are the coerced values of the input categories, in order. |
| GeminiService.NormalizedContent | extracteur-de-menu-ia/services/geminiService.ts:87-104 | Apart from the ids, normalisation does not depend on the generator. |
| GeminiService.NormalizeDocument | extracteur-de-menu-ia/services/geminiService.ts:75-106 | A `null` document fails on reading `restaurantName`. A non-string `restaurantName` or non-array `categories` gives the shape error. Success happens exactly when the shape holds and no category or item is null. A success keeps the restaurant name and the number of categories. |
| GeminiService.NormalizedIdsUnique | extracteur-de-menu-ia/services/geminiService.ts:92-98 | When the identifiers drawn for the document are distinct, its category ids are unique and the item ids within each category are unique. |
| GeminiService.NormalizedDescriptionsPresent | extracteur-de-menu-ia/services/geminiService.ts:100 | Every normalised item carries a description. |
| GeminiService.RenormalizeKeepsContent | extracteur-de-menu-ia/services/geminiService.ts:84-105 | The JSON form of a document whose items carry descriptions passes the checks again, with the same name and the same content apart from ids. |
| GeminiService.CategoryRoundTrip | extracteur-de-menu-ia/services/geminiService.ts:87-103 | Writing a category as JSON and coercing it gives back its content. |
| GeminiService.SerializedCategories | extracteur-de-menu-ia/services/geminiService.ts:87-104 | Writing categories as JSON and normalising them gives back their content. |
| GeminiService.FormatFailure | extracteur-de-menu-ia/services/geminiService.ts:107-109 | The wrapped message is the fixed prefix, the inner message and `Contenu reçu: `, followed by the first 500 characters of the text, or all of it when it is shorter. |
| GeminiService.Classify | extracteur-de-menu-ia/services/geminiService.ts:112-127 | The checks run in a fixed order: `permission denied`, then `API key not valid`, then a block reason, giving exactly the blocked prefix, the reason, the message label and the block message or its default, then the generic prefix with the message or the default. |
| GeminiService.ExtractMenuData | extracteur-de-menu-ia/services/geminiService.ts:38-129 | Without an API key it fails with the key message before any request. It succeeds exactly when the response has text whose cleaned form parses and normalises, and then it returns that document. A thrown API error is classified. |
| GeminiService.FormatErrorMessage | extracteur-de-menu-ia/services/geminiService.ts:107-127 | A parse or shape failure always ends in an error. Unless the wrapped text names one of the two keywords, the error is the generic prefix followed by the wrapped message. |
| GeminiService.QuotedKeywordClassifiesFormatError | extracteur-de-menu-ia/services/geminiService.ts:109-115 | A failing response that quotes `permission denied` within its first 500 characters is reported as a permission error. |
| HtmlEscape.ReplaceAll | extracteur-de-menu-ia/utils/htmlGenerator.ts:8-12 | A global replacement of a character that does not occur changes nothing. |
| HtmlEscape.ReplaceAllConcat | extracteur-de-menu-ia/utils/htmlGenerator.ts:8-12 | A global replacement distributes over concatenation. |
| HtmlEscape.ChainConcat | extracteur-de-menu-ia/utils/htmlGenerator.ts:7-12 | The five-replacement chain distributes over concatenation. |
| HtmlEscape.ChainOfChar | extracteur-de-menu-ia/utils/htmlGenerator.ts:7-12 | On one character the chain yields that character's entity. Because `&` is replaced first, no entity is escaped again. |
| HtmlEscape.ChainIsPerCharacter | extracteur-de-menu-ia/utils/htmlGenerator.ts:7-12 | The chain equals escaping character by character, so no character is escaped twice. |
| HtmlEscape.EscapeHtml | extracteur-de-menu-ia/utils/htmlGenerator.ts:5-13 | A value that is not a string gives `""`. A string gives its per-character escape. |
| HtmlEscape.EscapeEmpty | extracteur-de-menu-ia/utils/htmlGenerator.ts:5-13 | The escape is empty exactly for the empty string. |
| HtmlEscape.EscapeIsSafe | extracteur-de-menu-ia/utils/htmlGenerator.ts:7-12 | The escape holds no raw `<`, `>`, `"` or `'`, and every `&` starts one of the five entities. |
| HtmlEscape.UnescapeEscape | extracteur-de-menu-ia/utils/htmlGenerator.ts:7-12 | Decoding the five entities recovers the input. |
| HtmlEscape.EscapeHtmlSafeAndReversible | extracteur-de-menu-ia/App.tsx:281-289 | The page's copy of `escapeHtml` is safe and reversible too. |
| HtmlGenerator.Or | extracteur-de-menu-ia/utils/htmlGenerator.ts:16 | `a \|\| b` on strings gives `a` unless it is empty, and `b` otherwise. |
| HtmlGenerator.RoleColor | extracteur-de-menu-ia/utils/htmlGenerator.ts:17-19 | `palette?.[i] \|\| default` gives the palette entry when it exists and is not empty, and the default otherwise, including out of range. |
| HtmlGenerator.Roles | extracteur-de-menu-ia/utils/htmlGenerator.ts:16-19 | Primary is `dominant`, or `#3B82F6` when empty. Secondary, text and description come from palette entries 1, 2 and 3, or default to `#1D4ED8`, `#1F2937` and `#4B5563`. None is empty. |
| HtmlGenerator.GenerateMenuHtml | extracteur-de-menu-ia/utils/htmlGenerator.ts:15-55 | The accumulator loop over the categories builds exactly the specified fragment: header, one section per category, then footer. |
| HtmlGenerator.AppendSection | extracteur-de-menu-ia/utils/htmlGenerator.ts:31-47 | One pass of the category loop appends that category's section, or nothing when it is skipped. |
| HtmlGenerator.AppendArticles | extracteur-de-menu-ia/utils/htmlGenerator.ts:35-45 | The item loop appends the articles of the items, in order. |
| HtmlGenerator.AppendArticle | extracteur-de-menu-ia/utils/htmlGenerator.ts:36-44 | One pass of the item loop appends that item's article. |
| HtmlGenerator.Frame | extracteur-de-menu-ia/utils/htmlGenerator.ts:25-28 | The fragment starts with the container and header and ends with the container's `</div>`. With no categories it is exactly the header followed by the footer. |
| HtmlGenerator.TitleRule | extracteur-de-menu-ia/utils/htmlGenerator.ts:27 | The title falls back to `Menu du Restaurant` exactly when the name is empty. Otherwise it is the escaped name, which decodes back to the name. It is always safe. |
| HtmlGenerator.ItemNameRule | extracteur-de-menu-ia/utils/htmlGenerator.ts:38 | The item heading falls back to `Plat sans nom` exactly when the name is empty. Otherwise it is the escaped name, which decodes back to the name. It is always safe. |
| HtmlGenerator.DefaultTitleIsSafe | extracteur-de-menu-ia/utils/htmlGenerator.ts:27 | The fallback title needs no escaping. |
| HtmlGenerator.DefaultItemNameIsSafe | extracteur-de-menu-ia/utils/htmlGenerator.ts:38 | The fallback item name needs no escaping. |
| HtmlGenerator.SectionRule | extracteur-de-menu-ia/utils/htmlGenerator.ts:31-47 | A category without a name or without items adds nothing. Any other category adds text that starts with its heading and item list and ends with `</div></section>`. |
| HtmlGenerator.OnlyShownCategories | extracteur-de-menu-ia/utils/htmlGenerator.ts:30-31 | The sections are those of the shown categories alone, in input order. |
| HtmlGenerator.Shown | extracteur-de-menu-ia/utils/htmlGenerator.ts:31 | The shown categories are those with a name and items, and all come from the input. |
| HtmlGenerator.SectionPosition | extracteur-de-menu-ia/utils/htmlGenerator.ts:30 | Category `k`'s section follows the sections of the categories before it and precedes those after it. |
| HtmlGenerator.ArticlePosition | extracteur-de-menu-ia/utils/htmlGenerator.ts:35 | Item `k`'s article follows the articles of the items before it and precedes those after it. |
| HtmlGenerator.SectionsConcat | extracteur-de-menu-ia/utils/htmlGenerator.ts:30 | Rendering two runs of categories in turn is the same as rendering them joined. |
| HtmlGenerator.ArticlesConcat | extracteur-de-menu-ia/utils/htmlGenerator.ts:35 | Rendering two runs of items in turn is the same as rendering them joined. |
| HtmlGenerator.ArticlesExtend | extracteur-de-menu-ia/utils/htmlGenerator.ts:35-45 | The item loop only appends, and adds at least one character per item. |
| HtmlGenerator.SectionsExtend | extracteur-de-menu-ia/utils/htmlGenerator.ts:30-48 | The category loop only appends. |
| HtmlGenerator.DescriptionRule | extracteur-de-menu-ia/utils/htmlGenerator.ts:39-41 | An item with an absent or empty description renders as if it had none. Otherwise its article is longer by exactly the length of one description paragraph. |
| HtmlGenerator.DescriptionPlacement | extracteur-de-menu-ia/utils/htmlGenerator.ts:35-43 | A shown description is exactly one description paragraph, placed between the item heading and the rest of the article. Without it the article is the heading followed directly by that same rest. |
| ColorExtractor.Channel | extracteur-de-menu-ia/utils/colorExtractor.ts:8-9 | A channel is written as at least two lower-case hexadecimal digits. |
| ColorExtractor.ToHex | extracteur-de-menu-ia/utils/colorExtractor.ts:7-10 | The colour is `#` followed by lower-case hexadecimal digits. |
| ColorExtractor.ByteChannel | extracteur-de-menu-ia/utils/colorExtractor.ts:8-9 | A channel from 0 to 255 takes exactly two digits. The first digit is `0` exactly when the value is below 16, and the digits read back as the value. |
| ColorExtractor.ReadChannels | extracteur-de-menu-ia/utils/colorExtractor.ts:7-10 | Reading digit pairs gives one channel per pair. |
| ColorExtractor.ChannelsLayout | extracteur-de-menu-ia/utils/colorExtractor.ts:7-10 | Channels from 0 to 255 give two digits each, channel `k` being the `k`-th pair. |
| ColorExtractor.ToHexLayout | extracteur-de-menu-ia/utils/colorExtractor.ts:7-10 | The colour has `1 + 2n` characters for `n` byte channels, and channel `k` sits at positions `1 + 2k` and `2 + 2k`, in order. |
| ColorExtractor.TripleLength | extracteur-de-menu-ia/utils/colorExtractor.ts:7-10 | An RGB triple gives a seven-character colour. |
| ColorExtractor.ToHexRoundTrip | extracteur-de-menu-ia/utils/colorExtractor.ts:7-10 | Reading the digits after `#` two at a time gives the channels back. |
| ImageUploader.Check | extracteur-de-menu-ia/components/ImageUploader.tsx:26-39 | Outcomes, each an if-and-only-if: no file does nothing; a file over 10 MiB is rejected for size; a file within the limit of a type outside PNG, JPEG, GIF and WEBP is rejected for type; any other file is accepted as the same file. Each rejection carries its message. |
| ImageUploader.LimitIsInclusive | extracteur-de-menu-ia/components/ImageUploader.tsx:29 | 10485760 bytes pass the size check, and 10485761 do not. |
| ImageUploader.SizeBeforeType | extracteur-de-menu-ia/components/ImageUploader.tsx:29-36 | An oversized file of an unsupported type gets the size rejection. |
| ImageUploader.AcceptedFiles | extracteur-de-menu-ia/components/ImageUploader.tsx:29-37 | A file is accepted exactly when it has at most 10485760 bytes and one of the four image types. |
| MenuEdits.Update | extracteur-de-menu-ia/App.tsx:215-216 | `map` with an id test keeps length and order. It changes only the entries whose id matches, and changes them by the patch. |
| MenuEdits.UpdateUnknown | extracteur-de-menu-ia/App.tsx:215-216 | A `map` that matches no id returns the list unchanged. |
| MenuEdits.Without | extracteur-de-menu-ia/App.tsx:250 | `filter` by id keeps exactly the entries whose id differs, and no others. |
| MenuEdits.WithoutConcat | extracteur-de-menu-ia/App.tsx:250 | Filtering distributes over concatenation, so survivors keep their relative order. |
| MenuEdits.WithoutUnknown | extracteur-de-menu-ia/App.tsx:275 | Filtering out an id that is absent changes nothing. |
| MenuEdits.WithoutIds | extracteur-de-menu-ia/App.tsx:275 | The ids of the survivors are the original ids with the removed one filtered out. |
| MenuEdits.WithoutKeepsDistinct | extracteur-de-menu-ia/App.tsx:275 | Filtering keeps a list of distinct ids distinct. |
| MenuEdits.Rename | extracteur-de-menu-ia/App.tsx:208-210 | A null document stays null. Otherwise only the restaurant name changes, and the categories are kept. |
| MenuEdits.EditCategory | extracteur-de-menu-ia/App.tsx:212-219 | A null document stays null, and the restaurant name is kept. |
| MenuEdits.EditCategoryFields | extracteur-de-menu-ia/App.tsx:212-219 | Editing a category keeps the number, order, ids and items of the categories. It changes the name only of the category whose id matches, and only when the patch sets one. |
| MenuEdits.EditItem | extracteur-de-menu-ia/App.tsx:221-233 | A null document stays null, and the restaurant name is kept. |
| MenuEdits.EditItemFields | extracteur-de-menu-ia/App.tsx:221-233 | Editing an item keeps the number, order and ids of categories and items. It patches only the item whose id matches, in the category whose id matches, and leaves every other category unchanged. |
| MenuEdits.EditUnknownIsNoOp | extracteur-de-menu-ia/App.tsx:212-279 | With an unknown category id, every category and item edit returns the document unchanged. With an unknown item id, item edits leave the category unchanged. |
| MenuEdits.AbsentStaysAbsent | extracteur-de-menu-ia/App.tsx:208-279 | Every edit keeps a null document null, except adding a category, which creates `Nouveau Menu` with one `Nouvelle Catégorie`. |
| MenuEdits.AddCategory | extracteur-de-menu-ia/App.tsx:235-245 | Adding a category appends exactly one new empty category at the end. On a null document it creates `Nouveau Menu` holding only that category. |
| MenuEdits.DeleteCategory | extracteur-de-menu-ia/App.tsx:247-252 | A category survives exactly when its id differs from the one deleted. |
| MenuEdits.DeleteCategoryOrder | extracteur-de-menu-ia/App.tsx:247-252 | Deleting a category filters each part of the list in place, so the survivors keep their relative order. |
| MenuEdits.AddItem | extracteur-de-menu-ia/App.tsx:254-267 | A null document stays null, and the restaurant name is kept. |
| MenuEdits.AddItemFields | extracteur-de-menu-ia/App.tsx:254-267 | Adding an item appends `Nouvel Article` with an empty description and price `0.00`, to the matching category only. |
| MenuEdits.DeleteItem | extracteur-de-menu-ia/App.tsx:269-279 | A null document stays null, and the restaurant name is kept. |
| MenuEdits.DeleteItemFields | extracteur-de-menu-ia/App.tsx:269-279 | In the matching category an item survives exactly when its id differs. Every other category is unchanged. |
| MenuEdits.EditsKeepUniqueIds | extracteur-de-menu-ia/App.tsx:212-233 | Category and item edits keep ids unique. |
| MenuEdits.AddCategoryKeepsUniqueIds | extracteur-de-menu-ia/App.tsx:235-245 | Adding a category with a fresh id keeps ids unique. |
| MenuEdits.AddItemKeepsUniqueIds | extracteur-de-menu-ia/App.tsx:254-267 | Adding an item with a fresh id keeps ids unique. |
| MenuEdits.DeletionsKeepUniqueIds | extracteur-de-menu-ia/App.tsx:247-279 | Deletions keep ids unique. |
| App.Initial | extracteur-de-menu-ia/App.tsx:22-32 | The page starts with no document, no fragment and nothing loading. |
| App.ApplyEdit | extracteur-de-menu-ia/App.tsx:208-279 | After an edit a document exists exactly when one existed before or the edit adds a category. |
| App.SecondField | extracteur-de-menu-ia/App.tsx:87 | `split(',')[1]` exists exactly when the text has a comma. It is then the text after the first comma, up to the next comma or the end. |
| App.DataUrlPayload | extracteur-de-menu-ia/App.tsx:87 | For a data URL `header,payload`, the image data stored is the payload. |
| App.RenderRule | extracteur-de-menu-ia/App.tsx:67-78 | A fragment is produced exactly when a document exists and either colours exist or none are loading. Extracted colours are used when present, and the fixed fallback theme otherwise. Nothing else changes. |
| App.Session.RunRenderEffect | extracteur-de-menu-ia/App.tsx:67-78 | The rendering effect sets the fragment by the render rule. |
| App.ResetClearsDerivedState | extracteur-de-menu-ia/App.tsx:101-109 | Reset clears file, image data, preview, colours, document and fragment together, and stops the colour loading. Error and conversion loading are untouched. |
| App.Session.ResetImageState | extracteur-de-menu-ia/App.tsx:101-109 | `resetImageState` overwrites the fields as the reset transition says. |
| App.UploadClears | extracteur-de-menu-ia/App.tsx:80-99 | Choosing a file records it and clears document and fragment. Choosing none resets the page. |
| App.Session.HandleImageUpload | extracteur-de-menu-ia/App.tsx:80-99 | `handleImageUpload` overwrites the fields as the upload transition says. |
| App.Session.OnReaderLoaded | extracteur-de-menu-ia/App.tsx:84-88 | The reader's result becomes the preview, and its part after the comma becomes the image data. |
| App.Session.OnReaderError | extracteur-de-menu-ia/App.tsx:89-92 | A read error sets the message and resets the page. |
| App.Session.RunColorEffect | extracteur-de-menu-ia/App.tsx:38-65 | With a preview and a file, colour loading starts. Otherwise colours are cleared and loading stops. |
| App.Session.OnColorsExtracted | extracteur-de-menu-ia/App.tsx:43-53 | Extracted colours are stored, and loading stops. |
| App.Session.OnColorExtractionError | extracteur-de-menu-ia/App.tsx:47-53 | A failed extraction stores the fallback theme with its message, and loading stops. |
| App.Session.OnImageLoadError | extracteur-de-menu-ia/App.tsx:55-59 | An image that fails to load gives the fallback theme with its message, and loading stops. |
| App.ConvertGuards | extracteur-de-menu-ia/App.tsx:111-124 | Without image data, or without a key, only the error message is set. When the request starts, loading is on and the error, document and fragment are cleared. |
| App.Session.HandleConvert | extracteur-de-menu-ia/App.tsx:111-124 | `handleConvert` reports whether the request was sent and overwrites the fields by the guards. |
| App.ConvertOutcome | extracteur-de-menu-ia/App.tsx:126-135 | After the request, loading stops. A result becomes the document. A failure keeps the document and sets a non-empty error. |
| App.Session.OnConvertCompleted | extracteur-de-menu-ia/App.tsx:126-135 | The end of `handleConvert` overwrites the fields as the completion transition says. |
| App.Session.HandleEdit | extracteur-de-menu-ia/App.tsx:208-279 | An edit handler replaces the document by the edited one. |
| App.ImageTransitionsKeepHtmlHasMenu | extracteur-de-menu-ia/App.tsx:38-109 | The image and colour transitions never leave a fragment without a document. |
| App.DocumentTransitionsKeepHtmlHasMenu | extracteur-de-menu-ia/App.tsx:111-279 | Conversion, edits and the download guard never leave a fragment without a document. |
| App.Session.HandleDownload | extracteur-de-menu-ia/App.tsx:143-149 | Without a fragment, the error is set and nothing is returned. With a fragment, the file name is returned and the state is unchanged. |
| App.LowerChar | extracteur-de-menu-ia/App.tsx:149 | `toLowerCase` adds 32 to the code of `A`-`Z` and of the Latin-1 capitals `À`-`Þ` except `×`. It maps `Œ` to `œ` and `Ÿ` to `ÿ`. Every other character is left unchanged within this modelled range of `toLowerCase`. No upper-case ASCII letter remains, and white space stays white space. |
| App.Lower | extracteur-de-menu-ia/App.tsx:149 | `toLowerCase` keeps the length and maps each character. |
| App.LowerIdempotent | extracteur-de-menu-ia/App.tsx:149 | Lower-casing twice is the same as lower-casing once. |
| App.CollapseWhitespace | extracteur-de-menu-ia/App.tsx:149 | `replace(/\s+/g, '_')` leaves no white space and never lengthens the text. |
| App.CollapseRun | extracteur-de-menu-ia/App.tsx:149 | A whole run of white space becomes a single `_`. |
| App.CollapsePlain | extracteur-de-menu-ia/App.tsx:149 | A text without white space is left as it is. |
| App.DownloadFilename | extracteur-de-menu-ia/App.tsx:148-149 | The file name always ends with `_menu.html`. |
| App.DownloadFilenameRule | extracteur-de-menu-ia/App.tsx:148-149 | With a non-empty name, the file name is the name lower-cased with each white-space run collapsed to `_`, followed by `_menu.html`. It never contains white space. |
| App.DefaultFilename | extracteur-de-menu-ia/App.tsx:148-149 | Without a document, or with an empty name, the file name is `menu_menu.html`. |

## Left out

- JSX rendering and the view components: `HtmlOutputDisplay`, `MenuCategoryComponent`, `MenuItemComponent`, `EditableText`, `ErrorModal` and `Loader`. They only display state and forward events to the handlers modelled here.
- The Gemini request (`GoogleGenAI`, the prompt, the model name) and `JSON.parse`. The response and the parser are parameters of `ExtractMenuData`, and a thrown API error is an `ApiError` record of message, block reason and block message. The `console.error` logging is left out.
- Unknown JSON keys kept by the spreads of `geminiService.ts` lines 85, 93 and 97. A typed record cannot carry them, so a normalised document holds only the typed fields.
- The regular-expression engine. The fence rule of `geminiService.ts` line 66 is written out as prefix and suffix tests over a fixed white-space set. `trim`, `\s` and `toLowerCase` use the JavaScript white-space set and ASCII with Latin-1 letters, plus `Œ` and `Ÿ`. Other Unicode case mappings are not modelled.
- Colour extraction with `ColorThief`, the image `load`/`error` listeners and the promises of `colorExtractor.ts` lines 12-53. Their outcomes are the methods `OnColorsExtracted`, `OnColorExtractionError` and `OnImageLoadError`. `toHex` is modelled only for non-negative integer channels.
- Browser I/O: `FileReader`, `Blob`, `URL.createObjectURL`, anchor clicks, `navigator.clipboard`, `setTimeout`, `alert`, the success message and `handleCopyHtml`. Also left out is the full HTML document that the download and copy handlers wrap around the fragment. `HandleDownload` returns the file name and stops there.
- React scheduling. The two `useEffect` blocks are the methods `RunColorEffect` and `RunRenderEffect`, which the caller runs after the fields they depend on change. The model does not run them automatically.
- `Math.random`. The draws of `uuidv4` are a parameter, and identifier uniqueness is a hypothesis of the lemmas that need it.
- Text.Take: counts Unicode scalar values, while `substring` counts UTF-16 code units. For a response with characters outside the Basic Multilingual Plane (emoji, say) the model's snippet can be longer than the program's. A cut inside a surrogate pair, which leaves a lone surrogate in JavaScript, cannot be represented.
- GeminiService.FormatFailure: its 500-character snippet is counted by `Take`, in Unicode scalar values rather than UTF-16 code units, with the same consequence.
- Patches that explicitly set a field to `undefined`. A patch field is either absent or a string value.
- HtmlGenerator.Frame: states that the fragment ends with the container's closing `</div>`, not that it ends with the whole footer. The footer is given by `Footer` in the definition of `MenuHtml`.
- MenuEdits.EditCategory, MenuEdits.EditItem, MenuEdits.AddItem, MenuEdits.DeleteItem: their own contracts state only that a null document stays null and the name is kept. The per-entry effects are stated by `EditCategoryFields`, `EditItemFields`, `AddItemFields` and `DeleteItemFields`.
