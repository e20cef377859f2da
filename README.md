# Flippa Preview Extension: attachment enhancement, modelled in Dafny

The Flippa Preview Extension is a browser content script. It finds the
attachment widgets on a Flippa page (`.OnboardingAttachments__attachment__container`).
For each widget that has an attachment anchor, a title and a file-type tab, it:

- marks the widget with the class `flippa-preview-enhanced`;
- swaps the widget's stretched-link anchor for a `div` that has no `href`;
- appends a row of buttons: Preview (only for a previewable file type), Open and Download.

A popup can switch the extension off and on. It can also ask how many attachments the page has.

This project models that core:

- `Strings`: the JavaScript string built-ins the script uses. These are `split` and `join` on one character, `startsWith`, `trim` (the ECMAScript whitespace and line-terminator set) and `toLowerCase` (ASCII letters only).
- `ClassNames`: the class list of the replacement `div`. It is the anchor's classes without `stretched-link`.
- `ContentTypes`: the four-way content-type dispatch. It is used by the preview modal and by the page written into a new tab.
- `Buttons`: the file-type lists and the button row.
- `Settings`: how the stored on/off setting is read.
- `Attachments`: a widget as a value (`Container`), the enhancement step and the removal step for one widget, and both applied to a whole page.
- `ContentScript`: the `Page` class. Its fields are the `extensionEnabled` flag, the containers it rewrites in place and the number of open preview modals. Its methods are the enhancement and removal loops, the settings load, start-up and the popup message handler.

The code differs from the intended design in two places, and the model follows the code:

- Disabling does not restore the original anchor. The removal step looks for `a[href*="/attachments/"]` or `div[href*="/attachments/"]`, and the replacement `div` has neither. So once a widget has been enhanced, it keeps its `href`-less `div`. Switching the extension back on does not enhance it again (`DisableEnableDoesNotReenhance`).
- `enhanceAttachmentContainer` checks for missing elements before it checks the marker. So a widget that was already enhanced is turned away as "missing its anchor", and the marker check never decides anything on a page the script itself has rewritten (`EnhanceTwice`, `MarkerCheckUnreached`).

All paths below are relative to the repository root.

## Model

| member | source | states |
|---|---|---|
| `Strings.StartsWith` | flippa-preview-extension/content.js:358 | `startsWith(prefix)`: the prefix fits and the text begins with it; `ContentTypes.Classify` and `ContentTypes.PrefixesDisjoint` state what the content-type tests built on it decide |
| `Strings.Split` | flippa-preview-extension/content.js:121 | `split(' ')` gives at least one piece, and no piece contains the separator |
| `Strings.Join` | flippa-preview-extension/content.js:122 | `join(' ')`: the pieces with one separator between neighbours; `Strings.JoinSplit` and `Strings.SplitJoin` prove it the inverse of `Split` in both directions |
| `Strings.JoinSplit` | flippa-preview-extension/content.js:121-122 | joining the pieces of a split with the same separator gives back the original class string |
| `Strings.SplitJoin` | flippa-preview-extension/content.js:121-122 | splitting a join of one or more separator-free pieces gives back exactly those pieces |
| `Strings.LeadingEnd` | flippa-preview-extension/content.js:163-164 | the start of what `trim()` keeps: every character before it is trimmable, and the character at it, if any, is not |
| `Strings.TrailingStart` | flippa-preview-extension/content.js:163-164 | the end of what `trim()` keeps: every character from it on is trimmable, and the character before it, if still kept, is not |
| `Strings.Trim` | flippa-preview-extension/content.js:163-164 | `trim()` never lengthens the text, and its result neither starts nor ends with a trimmable character |
| `Strings.TrimKeepsTrimmed` | flippa-preview-extension/content.js:163-164 | text with no trimmable character at either end is trimmed to itself |
| `Strings.TrimRemovesEnds` | flippa-preview-extension/content.js:163-164 | `trim()` returns the contiguous part of the text between those two indices, with only trimmable characters on each side of it and none at either of its ends |
| `Strings.Lower` | flippa-preview-extension/content.js:164 | lower-casing keeps the length, turns each letter A–Z into its lower-case letter, keeps every other character, and so leaves no upper-case ASCII letter |
| `Strings.LowerKeepsLowerText` | flippa-preview-extension/content.js:164 | text without an upper-case ASCII letter is lower-cased to itself |
| `ClassNames.DropStretchedLink` | flippa-preview-extension/content.js:121 | the filter keeps a token if and only if it was in the input and is not `stretched-link` |
| `ClassNames.DropStretchedLinkAppend` | flippa-preview-extension/content.js:121 | the filter commutes with concatenation, so the kept tokens stay in their original order |
| `ClassNames.DropStretchedLinkIdentity` | flippa-preview-extension/content.js:121 | a token list without `stretched-link` passes the filter unchanged |
| `ClassNames.FilteredClassName` | flippa-preview-extension/content.js:121-122 | the class name of the replacement `div`: split on spaces, `stretched-link` filtered out, joined with spaces; the four `FilteredClassName…` lemmas below state its tokens, what it removes, what it keeps and its idempotence |
| `ClassNames.FilteredClassNameTokens` | flippa-preview-extension/content.js:121-122 | the new class name's tokens are exactly the old tokens minus `stretched-link`, in order (the single empty token when none remain) |
| `ClassNames.FilteredClassNameDropsStretchedLink` | flippa-preview-extension/content.js:121-122 | no space-separated token of the new class name is `stretched-link` |
| `ClassNames.FilteredClassNameKeepsOthers` | flippa-preview-extension/content.js:121-122 | a class name without `stretched-link` is copied verbatim |
| `ClassNames.FilteredClassNameIdempotent` | flippa-preview-extension/content.js:121-122 | filtering a class name twice gives the same result as filtering it once |
| `ContentTypes.Classify` | flippa-preview-extension/content.js:358-390 | Image exactly for an `image/` prefix, Pdf exactly for `application/pdf`, Text exactly for a `text/` prefix, otherwise Unsupported; the tests never overlap |
| `ContentTypes.PrefixesDisjoint` | flippa-preview-extension/content.js:358-379 | no content type passes two of the three tests, so their order does not change the result |
| `ContentTypes.PreviewContent` | flippa-preview-extension/content.js:353-391 | the preview modal's rendering has the family `Classify` gives; image and frames are bound to the fetched object URL, and the image uses the title as its alt text |
| `ContentTypes.GenerateFileContent` | flippa-preview-extension/content.js:621-642 | the new-tab rendering has the family `Classify` gives; an unsupported type still links the fetched bytes for download under the title |
| `ContentTypes.DispatchersAgree` | flippa-preview-extension/content.js:624-641 | the new tab and the preview modal classify every content type alike |
| `ContentTypes.PdfWithParametersUnsupported` | flippa-preview-extension/content.js:371 | `application/pdf; charset=binary` is Unsupported, because the PDF test is an exact match |
| `ContentTypes.PreviewExamples` | flippa-preview-extension/content.js:358-390 | `image/png` shows the fetched image inline, `application/json` shows the "not available" message, and `text/plain` shows a text frame |
| `Buttons.PreviewableIsImagesPdfText` | flippa-preview-extension/content.js:16-19 | the previewable list is the image list plus `pdf` and `txt` |
| `Buttons.IsPreviewable` | flippa-preview-extension/content.js:192 | `previewable.includes(fileType)`: membership in the previewable list; `Buttons.PreviewableIsImagesPdfText` states which types that is |
| `Buttons.FileTypeOf` | flippa-preview-extension/content.js:164 | the file type read from the tab is no longer than the tab text, has no upper-case ASCII letter and no trimmable character at either end |
| `Buttons.FileTypeOfIdempotent` | flippa-preview-extension/content.js:164 | normalising a file type that was already normalised gives it back unchanged |
| `Buttons.CreateButtonRow` | flippa-preview-extension/content.js:188-251 | a row holds Preview if and only if the type is previewable, ends with Open then Download, has 3 buttons or 2, and binds every button to the same URL and title |
| `Buttons.PreviewFollowsTabText` | flippa-preview-extension/content.js:164-192 | Preview is offered exactly when the trimmed, lower-cased tab text is in the previewable list |
| `Buttons.PaddedUpperCasePdfFileType` | flippa-preview-extension/content.js:164 | the tab text `" PDF\n"` reads as the file type `pdf` |
| `Buttons.PaddedUpperCasePdfIsPreviewable` | flippa-preview-extension/content.js:192-213 | a `" PDF\n"` tab gets a three-button row |
| `Buttons.DocxIsNotPreviewable` | flippa-preview-extension/content.js:192-248 | a `docx` tab gets only Open and Download |
| `Settings.LoadedSetting` | flippa-preview-extension/content.js:61-69 | the loaded flag is false if and only if storage holds exactly `false`; a failed read or an absent key gives true |
| `Attachments.EnhanceContainer` | flippa-preview-extension/content.js:152-185 | the step stops at the missing-element check exactly when the anchor, title or tab is missing, and at the marker check exactly when all three are present and the marker is set; a stopped step changes nothing; the step keeps a container well formed |
| `Attachments.IncompleteContainerUnchanged` | flippa-preview-extension/content.js:153-160 | a container missing its anchor, title or tab is left exactly as it was |
| `Attachments.EnhanceEligible` | flippa-preview-extension/content.js:171-182 | an eligible, unmarked container gets the marker, loses its anchor to the class-filtered `div`, keeps its title and tab, and gains exactly one row, built from its URL, its trimmed title and its tab text |
| `Attachments.EnhanceTwice` | flippa-preview-extension/content.js:157-169 | a second step changes nothing; after an enhancing step, the second step stops at the missing-element check |
| `Attachments.MarkerCheckUnreached` | flippa-preview-extension/content.js:157-169 | on a well-formed container the marker check never decides the outcome |
| `Attachments.RemoveEnhancement` | flippa-preview-extension/content.js:94-107 | removal clears the marker, keeps link, title and tab, and leaves an unmarked container unchanged; on a well-formed container it leaves no button row |
| `Attachments.EnhancePass` | flippa-preview-extension/content.js:72-89 | the closed form that `Page.EnhanceAttachments` is proved equal to: the page unchanged when disabled, otherwise each container replaced by its own enhancement step, in order; it keeps the number of containers |
| `Attachments.RemovePass` | flippa-preview-extension/content.js:92-108 | the closed form that `Page.RemoveEnhancements` is proved equal to: each container replaced by its own removal step, in order; it keeps the number of containers |
| `Attachments.EnhancedPointwise` | flippa-preview-extension/content.js:72-89 | a page whose every container has had its own enhancement step applied is the enabled pass over the page |
| `Attachments.RemovedPointwise` | flippa-preview-extension/content.js:92-108 | a page whose every container has had its own removal step applied is the removal pass over the page |
| `Attachments.EnhancePassWellFormed` | flippa-preview-extension/content.js:72-89 | a pass keeps every container well formed, so no container ever holds more than one button row |
| `Attachments.EnhancePassIdempotent` | flippa-preview-extension/content.js:72-89 | a second enhancement pass changes nothing |
| `Attachments.EnhancePasses` | flippa-preview-extension/content.js:694 | `n` enhancement passes in a row, as the page observer schedules them after DOM changes; `Attachments.EnhancePassesCollapse` proves any positive number of them equal to one |
| `Attachments.EnhancePassesCollapse` | flippa-preview-extension/content.js:686-706 | any positive number of passes, as the page observer may trigger, does what one pass does |
| `Attachments.RemovePassClears` | flippa-preview-extension/content.js:92-108 | after removal no container is marked or holds a row, and containers that were never marked are unchanged |
| `Attachments.DisableEnableDoesNotReenhance` | flippa-preview-extension/content.js:101-107 | after enhance, remove, enhance, no container is marked or holds a row, and a further pass changes nothing |
| `ContentScript.Page.constructor` | flippa-preview-extension/content.js:23-24 | a fresh page has the flag at `true`, the host's containers and no modals |
| `ContentScript.Page.Start` | flippa-preview-extension/content.js:27-38 | start-up on a loaded document enhances every container with the flag still `true`; only then does the flag take the stored setting |
| `ContentScript.Page.StartWithStoredSetting` | flippa-preview-extension/content.js:27-38 | applying the stored setting before the first pass leaves the page untouched when the setting is `false` |
| `ContentScript.Page.LoadSettings` | flippa-preview-extension/content.js:61-69 | completing the settings load sets only the flag |
| `ContentScript.Page.EnhanceAttachments` | flippa-preview-extension/content.js:72-89 | when disabled the page is unchanged; otherwise each container becomes its own enhancement step in document order, with nothing else touched |
| `ContentScript.Page.RemoveEnhancements` | flippa-preview-extension/content.js:92-113 | every container becomes its removal step and all modals are closed; the flag is unchanged |
| `ContentScript.Page.ShowPreviewModal` | flippa-preview-extension/content.js:257-258 | a preview adds one modal, whether or not the extension is enabled |
| `ContentScript.Page.CountAttachments` | flippa-preview-extension/content.js:53-56 | the count is the number of containers, marked or not |
| `ContentScript.Page.HandleMessage` | flippa-preview-extension/content.js:44-57 | a toggle sets the flag, then enhances or removes and replies `success: true`; a count request replies with the number of containers and changes nothing; any other action gets no reply and changes nothing |
| `ContentScript.StoredOffIgnoredAtStartup` | flippa-preview-extension/content.js:31-37 | with `false` stored and one complete attachment, the start-up pass still marks it and adds a row, but applying the setting first would leave it as it was |

## Findings

| source | as written | input that shows it | evidently intended | confidence | as-written member | corrected member |
|---|---|---|---|---|---|---|
| flippa-preview-extension/content.js:31-37 | `init` starts the asynchronous `loadSettings`, then calls `enhanceAttachments` synchronously while `extensionEnabled` still holds its initial `true` | storage holds `extensionEnabled: false`, the document has already loaded, and one attachment has its anchor, title and tab: the page ends disabled but enhanced | a stored `false` keeps the page unenhanced | medium, not executed | `ContentScript.StoredOffIgnoredAtStartup` | `ContentScript.Page.StartWithStoredSetting` |

`ContentScript.Page.Start` models `init` as written. `ContentScript.StoredOffIgnoredAtStartup` shows the two post-states side by side on the input above.

## Left out

- `fetchFileAsBlob`, `openInNewTab` and `downloadFile` are left out. They are network fetches, object URLs, `window.open`, `document.write` and programmatic clicks, with asynchronous error fallbacks. The dispatch inside `generateFileContent` is modelled.
- `previewFile` is reduced to `ShowPreviewModal`, the modal it appends. Its fetch, its error message and the image's asynchronous `onload`/`onerror` are not modelled. `ModalImage` stands for the image element whether it later loads or fails.
- Modal and toast lifecycle is left out, because it depends on timers, animation frames and DOM listeners. This includes closing a modal after 300 ms, removing the Escape listener only on Escape, and a close timer that fires after `removeEnhancements` has already removed the modal.
- `formatFileSize` is left out because it uses floating point (`Math.log`, `toFixed`, `parseFloat`). Its one exact case is that 0 gives `"0 Bytes"`.
- `escapeHtml` is left out because it relies on the browser's `innerHTML` serialisation. `GenerateFileContent` carries the title and content type unescaped, and no HTML markup, SVG or CSS is modelled.
- `observePageChanges` is left out because it runs from MutationObserver callbacks and a 100 ms timer. Its effect, further `enhanceAttachments` calls, is covered by `EnhancePassesCollapse`. Containers the host inserts later are not modelled.
- `replaceStretchedLink` is modelled only for the class filter and the anchor-to-`div` swap. The copied inner HTML and the removed download icon are not modelled. Neither is the title's click listener, which `removeEnhancements` never removes.
- CSS selector matching is abstracted. `AttachmentAnchor` stands for the first element matching `a[href*="/attachments/"]`, and `title` and `tab` for the first title span and tab. Only one anchor per container is modelled.
- `Page.Start` models only a document that has already finished loading. When the document is still loading, `DOMContentLoaded` may fire before or after the storage read, and that interleaving is not modelled.
- `HandleMessage` takes `enabled` as a boolean. JavaScript truthiness of a non-boolean `request.enabled` is not modelled.
- `Lower`: only the ASCII letters A–Z are lower-cased. `toLowerCase` also maps non-ASCII letters.
- `FilteredClassName`: the class string is split on the space character only, as `split(' ')` does, while the DOM splits `class` on any ASCII whitespace. A `stretched-link` that a tab, newline, carriage return or form feed separates from its neighbour survives the filter and stays in the new `div`'s class list.
- Every `chrome.*` call is a parameter or is left out. The storage read is a `StorageRead` value, a message is a `Request` value and the reply is the method's result.
- `flippa-preview-extension/popup.js` is popup UI wiring and `chrome.tabs`/`chrome.storage` calls. It is not part of this model.
