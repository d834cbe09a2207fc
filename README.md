# Job-application answer helper: a Dafny model

This project models the deterministic core of a browser extension that drafts answers to job-application questions. It covers four scripts:

- **Background script** (`background.js`).
  - The answer normaliser, which turns dashes into commas, drops whitespace before commas, collapses whitespace runs and trims.
  - The prompt builder.
  - The `generateAnswer` branch of the runtime message listener. It is modelled as a total function from the message, the storage read and the outcome of the HTTP exchange to the request it makes and the single response it sends.
- **Content script** (`contentScript.js`).
  - The job-description extractor and the question finder.
  - The page state: `state.activeField`, `state.button` and `state.modal`. It is modelled as a class whose methods are the focus, blur, scroll/resize, open, close, generate and insert handlers.
  - The class keeps the invariant that at most one floating button and at most one modal are in the document, and that a modal is open only for an active field.
- **PDF extractor** (`pdf-lib.js`).
  - The `cleanText` replacement chain.
  - The page loop of `extractFromArrayBuffer` over an abstract document (a sequence of pages, each its text items or the error reading it raised). It is a method with a loop, proved against a specification function.
  - The one-shot `init` flag.
- **Options page** (`options.js`).
  - `sanitizeText` and the mode badge.
  - Save and load over a storage map, including the "API key is required." gate.
  - The tab handlers.
  - The decisions of the file-upload handler: PDF detection, the 50-character minimum and the error paths.

## Modules

- **`Js`** (`js.dfy`): JavaScript conventions.
  - An optional slot for `undefined`, string truthiness, `||` defaults and string rendering.
  - Storage reads.
  - A `Result` type for an operation that returns or throws.
- **`Text`** (`text.dfy`): the string operations the scripts use.
  - The whitespace class is JavaScript's `\s`, which is also the set `String.prototype.trim` removes.
  - A global regex replace of a quantified character class (`/X+/g`, `/X{n,}/g`). Each maximal run of at least n class characters is replaced.
  - `trim`, `slice(0, n)`, `split` and `join`.
  - `Visible(s)`, the non-whitespace characters of `s` in order. Many lemmas use it to say that a rewrite only touches whitespace.
- **`Background`**, **`ContentScript`**, **`PdfLib`** and **`Options`**: one module per script.
- **`Wiring`**: the storage contract between the options page and the background script.

Strings are sequences of Unicode scalar values. I/O is not modelled as calls; the model takes its results as inputs. That covers storage, `fetch`, `chrome.runtime` messages, pdf.js, `FileReader`, `file.text()` and the DOM queries.

## Behaviour worth knowing

- `normalizeAnswer` keeps a space before `!` and other terminal punctuation. `"Hi — there ,  friend !"` becomes `"Hi, there, friend !"` (`Background.NormalizeKeepsSpaceBeforeBang`). Its four steps are the whole rewrite: dashes to commas, whitespace before a comma dropped, whitespace runs collapsed, trim.
- The job description is the whitespace-collapsed text of the first `main`/`article` element, or of the body, clipped to 4000 characters. It is recomputed on every call.
- Question resolution stops at a label or a placeholder even when its text is blank after trimming; the question is then `""` (`ContentScript.BlankLabelEndsSearch`, `ContentScript.BlankPlaceholderEndsSearch`). `openModal` then shows "Job application response".
- The handler reads one `apiKey` entry and talks only to the OpenAI endpoint. The options page writes `openaiKey`, `anthropicKey` and `geminiKey` and never `apiKey`. After a save into storage without an `apiKey` entry, every request ends with "Missing API key" (`Wiring.SavedKeyIsNotSeen`).
- `cleanText` first rewrites every run of line breaks to one `\n`. The blank line that joins two kept pages therefore becomes a single line break (`PdfLib.TwoPagesOneLineApart`).

## Model

| member | source | states |
|---|---|---|
| Text.RunLength | background.js:7 | the length of the leading run of a character class: every character before it is in the class and the next one is not |
| Text.Take | options.js:148 | `slice(0, n)`: a prefix of the text, the whole text when it has at most n characters and exactly n characters otherwise |
| Text.TrimStart | background.js:8 | the result does not start with whitespace |
| Text.TrimEnd | background.js:8 | the result is a prefix of the input, only whitespace is cut from the end, and the result does not end with whitespace |
| Text.Trim | background.js:8 | the result neither starts nor ends with whitespace |
| Text.TrimSlice | background.js:8 | trimming keeps one contiguous slice and removes only whitespace on either side of it |
| Text.TrimIdentity | background.js:8 | trimming text that is already trimmed changes nothing |
| Text.VisibleTrim | background.js:8 | trimming keeps every non-whitespace character |
| Text.TrimNoRun | background.js:8 | trimming does not create a run of class characters |
| Text.ReplaceRuns | background.js:7 | a first character outside the class is kept; a run starts the result with a class character when the replacement is made of class characters |
| Text.ReplaceRunsNoRun | background.js:7 | after a global replace of runs of at least `least` class characters by a shorter replacement, no run of n class characters remains |
| Text.ReplaceRunsIdentity | background.js:7 | text with no run of `least` class characters is left unchanged |
| Text.ReplaceRunsAvoids | pdf-lib.js:113-118 | a character in neither the text nor the replacement is not in the result |
| Text.ReplaceRunsRemoves | pdf-lib.js:114 | a class character that is not in the replacement is gone from the result |
| Text.VisibleReplaceRuns | contentScript.js:11 | replacing runs by whitespace keeps the non-whitespace characters in order |
| Text.ReplaceRunsPlain | options.js:148 | after `/\s+/g` becomes `" "`, the only whitespace left is the plain space |
| Text.ClippedCollapseShape | options.js:147-148 | collapse-trim-slice gives a prefix of the trimmed collapse of exactly min(n, its length) characters, with single plain spaces, no leading whitespace, and the non-whitespace characters and the words of the input |
| Text.Split | contentScript.js:19 | `split` gives at least one piece |
| Text.SplitJoin | contentScript.js:18-21 | joining the pieces of a split with its separator gives back the text |
| Text.SplitPiecesFree | contentScript.js:19 | no piece of a split contains the separator |
| Text.VisibleJoin | pdf-lib.js:81 | joining with a whitespace separator keeps the non-whitespace characters of the parts, in order |
| Text.JoinAvoids | pdf-lib.js:81 | a character in neither the parts nor the separator is not in the joined text |
| Text.JoinEndsWith | background.js:20-26 | the join of a list ends with the join of any of its suffixes |
| Text.NoRunConcat | background.js:7 | two run-free texts stay run-free when concatenated, unless a class character meets another at the seam |
| Text.ReplaceRunsConcat | background.js:7 | text that does not end in the class is rewritten the same whatever follows it, because no run crosses its end |
| Text.ReplaceRunsAtRun | background.js:7 | a maximal run of at least `least` class characters, between text that does not end and text that does not start with the class, becomes exactly the replacement, and the text on either side is rewritten on its own |
| Text.ReplaceRunsKeepsWords | background.js:7 | replacing whitespace runs by non-empty whitespace keeps the whitespace-separated words, so words that were apart stay apart |
| Text.TrimKeepsWords | background.js:8 | trimming keeps the whitespace-separated words |
| Text.CollapseKeepsWords | contentScript.js:11 | `/\s+/g` to `" "` followed by `trim` keeps the whitespace-separated words |
| Background.DashesToCommas | background.js:5 | the result has the input's length, each em or en dash is a comma and every other character is unchanged, so no dash is left |
| Background.VisibleDashes | background.js:5 | every dash becomes a comma and every other non-whitespace character is unchanged |
| Background.DashesIdentity | background.js:5 | dash-free text is unchanged |
| Background.DropSpaceBeforeComma | background.js:6 | a first character that does not open a whitespace run ending at a comma is kept |
| Background.DropLeavesNoSpaceBeforeComma | background.js:6 | after `/\s+,/g` becomes `","`, no whitespace directly precedes a comma |
| Background.DropIdentity | background.js:6 | text with no whitespace before a comma is unchanged |
| Background.DropAvoids | background.js:6 | the rewrite adds no character other than a comma |
| Background.VisibleDrop | background.js:6 | the rewrite deletes only whitespace |
| Background.SqueezeKeepsNoSpaceBeforeComma | background.js:7 | collapsing whitespace runs does not put whitespace before a comma |
| Background.TrimKeepsNoSpaceBeforeComma | background.js:8 | trimming does not put whitespace before a comma |
| Background.NormalizeAnswer | background.js:3-9 | the four rewrites in source order (dashes to commas, `/\s+,/g` to `","`, `/\s{2,}/g` to `" "`, trim); its own contract says the answer is trimmed, and `NormalizeAnswerShape`, `NormalizeAnswerKeepsWords` and `NormalizeAnswerIdempotent` carry the rest |
| Background.NormalizeAnswerShape | background.js:3-9 | the answer has no dash, no whitespace before a comma, no two whitespace characters in a row, no leading or trailing whitespace, and the input's non-whitespace characters in order with dashes as commas |
| Background.NormalizedIsFixed | background.js:3-9 | text with those four properties is its own normal form |
| Background.NormalizeAnswerIdempotent | background.js:3-9 | normalising twice is normalising once |
| Background.NormalizeAnswerKeepsWords | background.js:7-8 | the last two rewrites keep the whitespace-separated words of the text the comma rewrites produce: a whitespace run between two words still leaves a space |
| Background.NormalizeDashExample | background.js:3-9 | `"a — b"` becomes `"a, b"` |
| Background.DashExampleStep1 | background.js:5 | the first rewrite turns the dash of the example into a comma |
| Background.DashExampleStep2 | background.js:6 | the second rewrite drops the space before that comma |
| Background.DashExampleStep3 | background.js:7 | the third rewrite leaves single spaces alone |
| Background.NormalizeKeepsSpaceBeforeBang | background.js:3-9 | a space before `!` is kept |
| Background.BuildPrompt | background.js:11-29 | the system text is the fixed instruction text, and the user text starts with the resume heading followed by the resume or "(none provided)"; the full layout is `UserTextLayout` |
| Background.SystemTextIsFixed | background.js:12-18 | the system text is the same whatever the inputs |
| Background.UserTextLayout | background.js:20-26 | the user text is the five sections in order (resume, job description, question, current value, closing instruction) joined by a blank line; a falsy resume reads "(none provided)", a falsy field value "(empty)", and the job description and question are inserted as rendered |
| Background.UserStartsWithResume | background.js:21 | the user text starts with the resume section |
| Background.ResumePlaceholder | background.js:21 | the user text starts with the resume heading followed by the resume, or by "(none provided)" when it is falsy |
| Background.FieldValuePlaceholder | background.js:24-26 | with a falsy field value the user text ends with the "(empty)" section and the closing instruction |
| Background.GenerateAnswer | background.js:36-95 | a failed storage read responds with its message; a falsy `apiKey` gives the missing-key error with no request; otherwise exactly one request carries the key and the built prompt, and then an exception, a non-OK status (with its body) or blank content each give their error, and only non-blank content gives an answer |
| Background.OnMessage | background.js:31-97 | the listener keeps the channel open exactly for a generateAnswer message, and exactly then sends one response; other messages cause no request |
| Background.AnswerFromContent | background.js:84-91 | an answer comes only from content that is not blank after trimming, and is that trimmed content normalised |
| Background.AnswerShape | background.js:84-91 | an answer is never empty, is already normalised, and keeps the content's non-whitespace characters with dashes as commas |
| Background.NormalizedContent | background.js:84-91 | normalising non-blank trimmed content gives a non-empty normal form of that content |
| ContentScript.ExtractJobDescription | contentScript.js:9-13 | the prefix of the collapsed and trimmed page text of exactly min(4000, its length) characters, single plain spaces only, no leading whitespace |
| ContentScript.JobDescriptionKeepsShortText | contentScript.js:9-13 | when the collapsed text fits, the description keeps every non-whitespace character and the words of the text, and is trimmed |
| ContentScript.LookUpIds | contentScript.js:18-20 | one text per id, in order: the element's text, or `""` for an unknown id |
| ContentScript.GetQuestionText | contentScript.js:15-39 | the question never starts or ends with whitespace (the order of the sources is `QuestionOrder`) |
| ContentScript.AriaText | contentScript.js:16-26 | the aria branch's text is trimmed, and is `""` when the attribute is missing or empty |
| ContentScript.EnclosingLines | contentScript.js:37-38 | the fallback is trimmed; that it has no line break and keeps the visible text of three lines is `EnclosingLinesShape` |
| ContentScript.QuestionFromAria | contentScript.js:16-25 | when an element named by the aria attribute has visible text, that branch wins, and the question holds the referenced texts in the order the ids are listed |
| ContentScript.AriaWithoutTextFallsThrough | contentScript.js:16-26 | when the referenced elements have no visible text, the aria branch yields nothing |
| ContentScript.BlankLabelEndsSearch | contentScript.js:28-31 | a label whose text is only whitespace ends the search with `""` |
| ContentScript.QuestionOrder | contentScript.js:15-39 | the sources are tried in order, each only when all earlier ones gave nothing: aria text; else the trimmed text of a label for the id; else a non-empty placeholder, trimmed; else the first three lines of the enclosing text |
| ContentScript.BlankPlaceholderEndsSearch | contentScript.js:33-35 | with no aria text and no label text, a placeholder that is only whitespace ends the search with `""` |
| ContentScript.EnclosingLinesShape | contentScript.js:37-38 | the fallback has no line break, and keeps all non-whitespace characters of an enclosing text of at most three lines |
| ContentScript.ShownQuestion | contentScript.js:109 | the modal's question is never empty and is the found question when there is one |
| ContentScript.ShownError | contentScript.js:133-136 | the error shown is never empty and is the response's error when it has one |
| ContentScript.Page.constructor | contentScript.js:3-7 | the state starts with no field, button or modal |
| ContentScript.Modal.constructor | contentScript.js:77-100 | a new modal has its question, an empty answer textarea and a hidden error |
| ContentScript.Page.EnsureButton | contentScript.js:41-54 | the button is created once; later calls return the same button and add none |
| ContentScript.Page.PositionButton | contentScript.js:56-62 | afterwards a button exists and is shown, and it is the old one if there was one |
| ContentScript.Page.CloseModal | contentScript.js:64-69 | afterwards no modal is open and none is in the document; nothing else changes |
| ContentScript.Page.OpenModal | contentScript.js:71-153 | the old modal is always closed; with no active field no modal is left; otherwise exactly one new modal shows the field's question and an empty answer |
| ContentScript.Page.StartGenerate | contentScript.js:117-128 | the Generate click hides the error, empties the answer, disables the button, and sends a generateAnswer message with the question, the field value and the job description |
| ContentScript.Page.FinishGenerate | contentScript.js:130-139 | the button is enabled again; an answer fills the textarea; otherwise the error is shown and the textarea is left as it was |
| ContentScript.Page.Insert | contentScript.js:142-149 | blank output does nothing; otherwise the field receives the trimmed output, gets one input event, and the modal closes |
| ContentScript.Page.HandleFocus | contentScript.js:155-166 | only a textarea or a text input becomes the active field and shows the button; any other target changes nothing |
| ContentScript.Page.HandleBlur | contentScript.js:168-172 | blur hides the button and changes no state field |
| ContentScript.Page.HandleScrollOrResize | contentScript.js:176-185 | with an active field the button is shown again; without one nothing changes |
| ContentScript.Page.HandleFocusOutsideModal | contentScript.js:155-166 | the focus handler with focus inside the modal ignored: the modal always inserts into a page field |
| ContentScript.InsertAfterFocusingAnswerBox | contentScript.js:142-149 | after focusing the modal's answer box and clicking Insert, the page field is still empty, has had no input event, and the modal is closed |
| ContentScript.InsertAfterFocusingAnswerBoxFixed | contentScript.js:142-149 | with the corrected focus handler the same clicks put the answer into the page field with one input event |
| PdfLib.ReplaceChar | pdf-lib.js:105-111 | a global replace of one character by a non-empty text does not shorten the text |
| PdfLib.ExpandLigatures | pdf-lib.js:105-109 | the five ligature replacements do not shorten the text; that no ligature is left is `ExpandLigaturesAvoids` |
| PdfLib.ReplaceCharAvoids | pdf-lib.js:105-111 | replacing a character by text that lacks x leaves no x, when x was the replaced character or was absent |
| PdfLib.ReplaceCharAbsent | pdf-lib.js:105-111 | replacing a character that does not occur changes nothing |
| PdfLib.ExpandLigaturesAvoids | pdf-lib.js:105-109 | no ligature survives the five replacements, and they add only `f`, `i` and `l` |
| PdfLib.NothingToExpand | pdf-lib.js:105-109 | ligature-free text is unchanged |
| PdfLib.LastNewline | pdf-lib.js:116 | the position where `/\n\s+\n/` ends after a line break: the last line break in the whitespace run that follows it, if any |
| PdfLib.BlankLines | pdf-lib.js:116 | the first character is kept (that no whitespace-only line is left is `BlankLinesNoBlankLine`) |
| PdfLib.BlankLinesAvoids | pdf-lib.js:116 | the rewrite adds no character other than a line break |
| PdfLib.BlankLinesKeepsNoBlankRun | pdf-lib.js:114-116 | emptying whitespace-only lines does not create two spaces or tabs in a row |
| PdfLib.ReplaceRunsKeepsOtherNoRun | pdf-lib.js:113-118 | a global replace of one class's runs does not create a run of a disjoint class |
| PdfLib.VisibleBlankLines | pdf-lib.js:116 | emptying whitespace-only lines deletes only whitespace |
| PdfLib.BlankLinesNoBlankLine | pdf-lib.js:115-116 | after the rewrite no two line breaks enclose only whitespace |
| PdfLib.NoBlankLineNoTripleBreak | pdf-lib.js:116-118 | text with no whitespace-only line has no three line breaks in a row |
| PdfLib.CleanText | pdf-lib.js:100-121 | `""` for empty text; otherwise the chain in source order: expand ligatures, drop NUL, `[\r\n]+` to one line break, `[ \t]+` to one space, whitespace-only lines emptied, `\n{3,}` to a blank line, trim; its own contract says the result is trimmed and `CleanTextShape` and `CleanTextVisible` carry the rest |
| PdfLib.CleanTextShape | pdf-lib.js:100-121 | the result has no ligature, NUL, carriage return or tab, no two spaces or tabs in a row, no three line breaks in a row, no whitespace-only line, and no leading or trailing whitespace; empty text gives `""` |
| PdfLib.CleanTextVisible | pdf-lib.js:100-121 | the clean-up keeps every non-whitespace character after expanding ligatures and removing NUL |
| PdfLib.PageText | pdf-lib.js:71-73 | an unreadable page has no text; a page's text starts with its first item |
| PdfLib.PageTexts | pdf-lib.js:71-73 | one text per page: its items joined by single spaces |
| PdfLib.KeptPages | pdf-lib.js:66-78 | at most one kept text per page |
| PdfLib.KeptPagesNonBlank | pdf-lib.js:75-77 | every kept text is non-blank after trim, and every readable non-blank page is kept |
| PdfLib.KeptPagesVisible | pdf-lib.js:66-78 | dropping blank pages loses no non-whitespace character |
| PdfLib.FirstUnreadable | pdf-lib.js:66-68 | there is a failure exactly when some page cannot be read |
| PdfLib.Extraction | pdf-lib.js:56-93 | extraction throws exactly when loading or some page fails, always with the "Failed to extract text from PDF: " prefix; otherwise the text has the clean shape |
| PdfLib.ExtractionKeepsText | pdf-lib.js:61-88 | for a readable document the result is the cleaned join of the kept pages with a blank line, and it has all the pages' non-whitespace characters in page order |
| PdfLib.ReadableExtraction | pdf-lib.js:61-88 | a readable document gives the cleaned join of its kept pages |
| PdfLib.BlankDocument | pdf-lib.js:61-88 | a document whose pages are all blank gives `""` |
| PdfLib.TwoPagesKept | pdf-lib.js:66-81 | pages "a" and "b" are joined as "a", a blank line, "b" |
| PdfLib.NoLigatureInPageBreak | pdf-lib.js:105-111 | that joined text has nothing for the ligature and NUL replacements to change |
| PdfLib.MergeLineBreaks | pdf-lib.js:113 | the blank line between the pages becomes one line break |
| PdfLib.SingleLineBreakStays | pdf-lib.js:114-118 | the later rewrites leave the single line break alone |
| PdfLib.PageBreakMerged | pdf-lib.js:103-120 | cleaning the two joined pages gives "a", one line break, "b" |
| PdfLib.TwoPagesOneLineApart | pdf-lib.js:81-84 | two one-item pages come out one line break apart, not a blank line apart |
| PdfLib.PushIfNonBlank | pdf-lib.js:75-77 | a page text is appended exactly when it is non-blank after trim |
| PdfLib.ReadPages | pdf-lib.js:61-78 | the loop stops at the first unreadable page with its message; otherwise it collects exactly the kept page texts, in page order |
| PdfLib.PdfExtractor.constructor | pdf-lib.js:6-7 | the extractor starts uninitialised |
| PdfLib.PdfExtractor.Init | pdf-lib.js:12-22 | a no-op once initialised; without the library it throws "pdf.js library not loaded" and stays uninitialised; otherwise it becomes initialised |
| PdfLib.PdfExtractor.ExtractFromArrayBuffer | pdf-lib.js:56-93 | the method returns or throws what the specification of extraction says |
| Options.SanitizeText | options.js:147-148 | a prefix of the collapsed and trimmed text of exactly min(maxChars, its length) characters, single plain spaces only, no leading whitespace |
| Options.SanitizeKeepsShortText | options.js:147-148 | when the collapsed text fits, sanitising returns it whole: trimmed, with every non-whitespace character of the input in order and the same words |
| Options.CollapseRewriteIdentity | options.js:148 | text that already has single plain spaces is unchanged by the whitespace rewrite |
| Options.AtMostOneTrailingSpace | options.js:148 | single-spaced text without leading whitespace ends in one space at most |
| Options.SanitizeAgain | options.js:147-148 | sanitising a sanitised text again only trims it, and that removes at most one trailing space |
| Options.SanitizeCutsAfterSpace | options.js:147-148 | a cut at two characters of "a b" leaves "a " |
| Options.SanitizeNotIdempotent | options.js:147-148 | a second call turns that "a " into "a", so sanitising is not idempotent |
| Options.ModeBadge | options.js:60-63 | the badge reads Job exactly for "job", Social exactly for "social", and General for every other mode |
| Options.SavedTexts | options.js:447-450 | each saved text is at most 8000 characters with plain spaces only |
| Options.ActiveKey | options.js:459-461 | the active key is trimmed; which entry it is saved under is `SavedKeyEntry` |
| Options.SavedKeyEntry | options.js:444-461 | the active provider's key entry (anthropicKey, geminiKey, or openaiKey for any other provider) is saved and holds the trimmed active key; a model is saved exactly for the three known providers; "apiKey" is never an entry |
| Options.SaveEntries | options.js:468-480 | a save never writes "apiKey" and always writes the active provider's key entry; the rest of what it writes is `SaveEntriesShape` |
| Options.SaveEntriesShape | options.js:444-480 | the written entries never include "apiKey"; they include the active provider's trimmed key, a model exactly for a known provider, and the four sanitised texts |
| Options.SaveSettings | options.js:443-480 | a save is refused with "API key is required." exactly when the active key is empty after trimming; otherwise it writes the save entries, and the active key among them is non-empty |
| Options.AfterSaveMerges | options.js:463-480 | a refused save leaves storage unchanged; an accepted one overwrites the written entries and keeps every other stored entry |
| Options.SaveStatusShown | options.js:463-482 | the status is "API key is required." exactly for a refused save and "Settings saved." exactly for an accepted one |
| Options.LoadSettings | options.js:151-220 | the loaded provider, mode and style are never empty, because unset or empty ones take their defaults; `LoadDefaults`, `StoredModelGoesToStoredProvider` and `LoadStored` carry the rest |
| Options.LoadDefaults | options.js:169-201 | with nothing stored: provider openai, mode general, style genz, empty keys and texts, model selects unchanged |
| Options.StoredModelGoesToStoredProvider | options.js:215-219 | a model select changes only when the stored provider is its provider, and then to the stored model |
| Options.SavedRead | options.js:468-480 | every entry of a save reads back as the value written |
| Options.SaveStoresChoices | options.js:469-472 | the provider, mode and style read back as saved |
| Options.SaveStoresKeys | options.js:473-475 | the three keys read back trimmed |
| Options.SaveStoresTexts | options.js:476-479 | the four texts read back sanitised |
| Options.SaveStoresModel | options.js:470 | the active provider's model reads back |
| Options.LoadStored | options.js:169-219 | loading storage that holds the settings restores them, with empty choices as defaults and the model in the stored provider's select |
| Options.LoadAfterSave | options.js:169-219 | load after save restores the provider, mode and style (empty ones as defaults), the trimmed keys, the sanitised texts and a non-empty model |
| Options.SaveAfterReload | options.js:459-466 | saving again right after loading a save is accepted |
| Options.ReloadedKey | options.js:459-461 | the reloaded active key is the one saved |
| Options.LowerAscii | options.js:314 | lower-casing keeps the length |
| Options.UpperCaseSuffixIsPdf | options.js:314 | a name ending in ".PDF" counts as a PDF |
| Options.UploadDecision | options.js:314-357 | a file is accepted exactly when it reads and is either not a PDF or a PDF with the extractor loaded and at least 50 characters; an accepted file gets its text sanitised to maxChars; each refusal carries its message: no extractor, the read error, or a PDF text under 50 characters |
| Options.Decimal | options.js:351 | the count is printed as decimal digits with no leading zero, and the digits denote the count |
| Options.OptionsPage.constructor | options.js:51-53 | the page starts with provider openai, mode general and style genz |
| Options.OptionsPage.Load | options.js:151-220 | the page state becomes the loaded settings and the badge shows the loaded mode; storage and status are unchanged |
| Options.OptionsPage.Save | options.js:443-483 | storage becomes the result of the save, and the status line and its error flag report it |
| Options.OptionsPage.SelectProvider | options.js:72-87 | a provider tab sets the active provider; mode, style, form, storage, badge and status stay as they were |
| Options.OptionsPage.SelectMode | options.js:90-105 | a mode tab sets the active mode and the badge; provider, style, form, storage and status stay as they were |
| Options.OptionsPage.SelectStyle | options.js:108-114 | a style tab sets the active style; provider, mode, form, storage, badge and status stay as they were |
| Options.OptionsPage.HandleFileUpload | options.js:305-358 | a refused file leaves the form and storage as they were and shows an error; an accepted one sets the area's text, stores the file name and reports the count of characters extracted |
| Wiring.SavedKeyIsNotSeen | background.js:38-49 | after an accepted save into storage without "apiKey", the handler answers with the missing-key error and makes no request |
| Wiring.RequestUsesSavedResume | background.js:38-62 | with some other "apiKey" stored, the request uses that key and the sanitised resume the save wrote |

## Left out

- The DOM and the UI are not modelled. This covers the modal markup, tab and panel classes, the active-provider badge, the style-selector display, eye buttons, drag-and-drop listeners, `showFileInfo`/`hideFileInfo` and the `setTimeout` that clears the status. They are presentation only; the model keeps the state fields and the texts the decisions produce.
- `chrome.storage.local`, `chrome.runtime` messaging and `fetch` are not modelled as calls. Their results are inputs: a storage map or read error, a message record, and an `Exchange` value. The `await` interleavings are not modelled, so overlapping events and a `sendMessage` that rejects, which leaves the Generate button disabled, are left out.
- pdf.js and `FileReader` are not modelled. This covers `getDocument`, `getPage`, `getTextContent`, the worker path set in `init`, and `extractText` (`pdf-lib.js:29-49`). A document is given as its pages' text items or errors.
- `positionButton`'s pixel geometry is not modelled: it uses fractional coordinates and scroll offsets. The model records only that the button exists and is shown.
- The request's `temperature` (0.6) is a floating-point pass-through and is not part of `Background.Request`.
- The clear-file buttons (`options.js:261-280`) are not modelled. They empty a text area, remove a stored file name and show a status, and are outside the operations modelled here.
- Text.Take: lengths count Unicode scalar values, while JavaScript's `slice` and `length` count UTF-16 code units. Text outside the Basic Multilingual Plane is clipped and counted differently. The same goes for ContentScript.ExtractJobDescription, Options.SanitizeText, Options.UploadDecision and Options.Decimal.
- Options.LowerAscii: lower-cases ASCII letters only, where `toLowerCase` is full Unicode. The ".pdf" suffix test decides the same either way, because no other character lower-cases to `.`, `p`, `d` or `f`.
- Options.ModeBadge: a mode named like a property every object inherits (`constructor`, `toString`) shows that property's text in the source. The model shows General for it.
- Options.OptionsPage.Load: a stored provider or mode with no matching tab makes the source throw at `classList` after assigning the three choices, so the form values and models are not loaded. The model loads them.
- Options.OptionsPage.Load: a stored model that is not an option of its select leaves the select with no selection in the browser. The model puts the stored value in the select.
- Options.SaveSettings: with a provider outside openai, anthropic and gemini, `model` is `undefined`, and storage skips it. The model writes no "model" entry, which leaves a stored model in place.
- ContentScript.GetQuestionText: the label query interpolates the field id into a CSS selector, so an id containing a quote makes the source throw or match the wrong label. The model looks the label up by id exactly.
- ContentScript.Page.HandleFocus: `instanceof` is reduced to a kind tag on the focused element (textarea, input with its type, anything else).

## Findings

| source | as written | input that shows it | evidently intended | confidence | as-written member | corrected member |
|---|---|---|---|---|---|---|
| contentScript.js:155-166 | the window-level `focusin` handler accepts the modal's own answer textarea as the active field, so Insert (`contentScript.js:142-149`) writes the answer into that textarea and closes the modal | focus a page textarea, open the modal, generate "Hello", click into the answer box to edit it, click Insert | the answer is inserted into the page field the modal was opened for | not executed; high | ContentScript.InsertAfterFocusingAnswerBox | ContentScript.Page.HandleFocusOutsideModal |
