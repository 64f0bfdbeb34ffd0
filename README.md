# SellerAIWriter core in Dafny

SellerAIWriter turns a short product description, and an optional photo, into an e-commerce
listing for Amazon or eBay. A listing has a title, a description, bullet points, keywords, a
category, item specifics and tips. It can also translate a listing into English, German, French
or Italian, and save listings as JSON records. The backend is an Express server with two AI
routes (`/generate`, `/translate`) over two provider adapters (OpenAI, Gemini), plus a records
store. The frontend is a React page with two editing panels (bullet points, item specifics) and a
small API service.

This project models the deterministic logic inside that plumbing:

- the two adapters' prompt fragments, request assembly and failure handling (`Gemini`, `OpenAI`,
  with the shared API-key cleaning in `Provider`);
- the AI routes' validation, dispatch and error bodies (`AiRoutes`), including the base64
  encoding of the uploaded image (`Base64`);
- the records routes' file naming, `.json` filter, newest-first sort and save/get round trip
  over a file store (`Records`, class `RecordStore`);
- the client API service: which server answers become a returned value and which a thrown error
  (`ApiService`);
- the page's state and handlers (`App`, class `Page`);
- the item-specifics editor (`ItemSpecifics`, class `Editor`, over the ordered attribute map of
  `Entries`);
- the bullet-point editor (`BulletPoints`, class `Editor`).

The SDK calls are function parameters: Gemini's `Model` maps request parts to a `CallOutcome`,
and OpenAI's `ChatModel` maps messages to one. `JSON.parse` is a partial `Decoder` and
`JSON.stringify` an `Encoder`. The file system is a map. `Date.parse`, the clock and
`URL.createObjectURL` are parameters. The server, as the client sees it, is a function from
request body to answer. JavaScript truthiness, destructuring defaults, `||` defaults and the
Axios/`fetch` difference (Axios rejects non-2xx answers, `fetch` does not) are written out
explicitly.

The code has no retry or backoff loop of its own: the only retry is the OpenAI SDK option
`maxRetries: 3`, which is not modelled.

## Model

| member | source | states |
|---|---|---|
| Provider.CleanApiKey | backend/services/gemini.js:14 | An unset key becomes "". Otherwise the result is either the key itself, or the key with exactly its first and last character removed, both of them quotes. |
| Provider.CleanStripsOnePair | backend/services/openai.js:14 | A key wrapped in one quote of either kind at each end, with no line terminator inside, loses exactly that pair. The two quotes may be of different kinds. |
| Provider.CleanKeepsUnquoted | backend/services/gemini.js:14 | A key that does not start and end with a quote is used unchanged. |
| Gemini.PlatformName | backend/services/gemini.js:35 | The prompt names "Amazon" exactly when the platform is "amazon", and "eBay" exactly for every other value. |
| Gemini.Rules | backend/services/gemini.js:36-48 | Amazon's rules are chosen exactly for "amazon" and eBay's for every other value. Bullet points are required exactly for Amazon. |
| Gemini.BulletTemplate | backend/services/gemini.js:63-70 | The template has five example bullets when bullet points are required, otherwise one instruction for 3-5 feature points. |
| Gemini.PromptSelectsPlatform | backend/services/gemini.js:35-70 | For "amazon" the prompt carries Amazon's name, Amazon's rules and a five-bullet template. Any other value gets the name "eBay", eBay's rules and a one-item template; each is stated as an iff. |
| Gemini.SpecificsKeysByPlatform | backend/services/gemini.js:73-83 | The template's attribute names are distinct. "Model Number" and "Item Weight" occur exactly for Amazon; "MPN" and "Weight" occur exactly otherwise. |
| Gemini.RequestParts | backend/services/gemini.js:89-103 | Without a truthy image there are two parts: the prompt and the labelled description. With one there are four, and the fourth is image/jpeg inline data holding the image. An inline-data part exists iff the image is truthy. |
| Gemini.BuildParts | backend/services/gemini.js:89-103 | Pushing onto the initial array yields exactly `RequestParts`. |
| Gemini.GenerateFallback | backend/services/gemini.js:126-133 | The title is `desc` cut to 100 characters. The description is the raw response text. Bullets, keywords, category and specifics are empty. |
| Gemini.InterpretGenerate | backend/services/gemini.js:114-141 | It throws iff the call failed or the text is empty, and every thrown message starts with "Gemini内容生成失败: ". JSON text is returned parsed; other text gives the fallback. |
| Gemini.GenerateContent | backend/services/gemini.js:27-141 | The result is the interpretation of the model's answer to the request parts built for the platform's prompt. |
| Gemini.InterpretTranslate | backend/services/gemini.js:160-179 | It throws iff the call failed or the text is empty, with the prefix "Gemini翻译失败: ". JSON text is returned parsed; other text returns the input object unchanged. |
| Gemini.TranslateParts | backend/services/gemini.js:153-156 | The request is one text part naming the target language and holding the encoded object. |
| Gemini.TranslateContent | backend/services/gemini.js:150-180 | The model is asked once with that part. It throws iff the call failed or the answer is empty, always with the translation prefix; a failed call throws the prefix plus its message. A JSON answer is returned decoded, and any other non-empty answer returns the input object. |
| OpenAI.PlatformLabel | backend/services/openai.js:35 | The system prompt names 亚马逊 exactly for "amazon", otherwise eBay. |
| OpenAI.Messages | backend/services/openai.js:32-74 | There is a system message, then one user message. Its content is the text first, then an image_url part with the `data:image/jpeg;base64,` prefix iff the image is truthy. |
| OpenAI.BuildMessages | backend/services/openai.js:53-74 | Pushing onto `messages` and onto the user content yields exactly `Messages`. |
| OpenAI.GenerateFallback | backend/services/openai.js:88-95 | The title is `text` cut to 100 characters. There is one bullet point; keywords, category and specifics are empty. |
| OpenAI.InterpretGenerate | backend/services/openai.js:84-96 | It never throws. A successful, parseable answer is returned parsed. A failed call or text that is not JSON, the empty text included, gives the fallback. |
| OpenAI.GenerateContent | backend/services/openai.js:30-97 | The result is the interpretation of the chat model's answer to `Messages`. |
| OpenAI.LanguageName | backend/services/openai.js:107-117 | en, de, fr and it map to their Chinese names. Any other code is used unchanged, so the name is empty only for the empty code. |
| OpenAI.InterpretTranslate | backend/services/openai.js:132-137 | A parseable answer is the translation. A failed call or an answer that is not JSON, the empty answer included, returns the original content. |
| OpenAI.TranslateMessages | backend/services/openai.js:107-122 | Two messages: the system prompt naming the language (the Chinese name of a known code, any other code as it is), then the encoded content. |
| OpenAI.TranslateContent | backend/services/openai.js:105-138 | It never throws. A failed call, an empty answer or one that is not JSON gives back the content; otherwise the result is the decoded answer. |
| Base64.Encode | backend/routes/ai.js:68 | The encoding is four characters per started group of three bytes, all from the base 64 alphabet or `=`. |
| Base64.ValueOfDigit | backend/routes/ai.js:68 | Every six-bit value is written as the alphabet character that reads back as that value. |
| Base64.GroupRoundTrip | backend/routes/ai.js:68 | The four characters of a group of one to three bytes decode back to exactly those bytes, the padding telling how many. |
| Base64.DecodeEncode | backend/routes/ai.js:68 | The encoding carries exactly the image's bytes: decoding it gives them back. |
| Base64.TestVectors | backend/routes/ai.js:68 | "f", "fo" and "foo" encode as "Zg==", "Zm8=" and "Zm9v", the test vectors of section 10 of RFC 4648. |
| Base64.GroupCountRoundsUp | backend/routes/ai.js:68 | The number of groups is the byte count divided by three, rounded up. |
| Base64.EncodeLength | backend/routes/ai.js:68 | The encoding's length is `4 * ((n + 2) / 3)`. |
| Base64.EncodeEmptyIff | backend/routes/ai.js:67-68 | The encoding is the empty (falsy) string exactly for the empty buffer. |
| AiRoutes.SafeReadFile | backend/routes/ai.js:10-22 | It returns bytes iff the path is truthy, exists and is readable, and then they are the file's bytes. Otherwise it returns `null`. |
| AiRoutes.ImageFor | backend/routes/ai.js:63-77 | There is an image iff the file can be read, and it is the base64 of the file's bytes. A missing or unreadable file leaves it `null` and the request proceeds. |
| AiRoutes.EmptyImageFileSendsNoImage | backend/routes/ai.js:63-77 | A readable empty file gives the falsy text "", so Gemini gets two parts and OpenAI one content part. |
| AiRoutes.Generate | backend/routes/ai.js:27-108 | 400 iff both text and image path are falsy. "gemini" dispatches to Gemini and every other model (default 'openai') to OpenAI, with `text \|\| ""` and default platform 'amazon'. Status 200 iff a content body. 500 only for Gemini, carrying the thrown message and the six-field fallback listing. |
| AiRoutes.Translate | backend/routes/ai.js:113-186 | 400 iff the content is missing or the target language is falsy. Otherwise dispatch is as in generate and 200 carries the provider's result. 500 only for Gemini, and its `fallbackData` is the request's content. |
| Records.SafeTimestamp | backend/routes/records.js:42 | The result has the same length and no ':'. Every ':' becomes '-' and every other character is unchanged. |
| Records.FileName | backend/routes/records.js:42-43 | The name contains no ':'. It starts with "record_" and ends with ".json", and the part between them is exactly the safe timestamp. |
| Records.TimestampFor | backend/routes/records.js:42 | A truthy supplied timestamp is used verbatim; an absent or empty one is replaced by the current time. |
| Records.SavedUnderSafeTimestamp | backend/routes/records.js:43-63 | Getting by the dash-replaced timestamp names the saved file. No id containing ':' ever names a saved file. |
| Records.ColonAndDashCollide | backend/routes/records.js:43-44 | Two distinct timestamps, "10:30" and "10-30", name the same file. |
| Records.Insert | backend/routes/records.js:23 | Inserting adds exactly that record (multiset), makes the list one longer and adds nothing else. |
| Records.SortPermutes | backend/routes/records.js:23 | Sorting returns the same records, each as often as before. |
| Records.InsertKeepsOrder | backend/routes/records.js:23 | Inserting a dated record into a newest-first list of dated records keeps it newest first. |
| Records.SortOrdersDated | backend/routes/records.js:23 | When every timestamp parses, the sorted list is newest first. |
| Records.SortNewestFirst | backend/routes/records.js:23 | Sorting keeps the number of records and returns only records of the input. |
| Records.JsonNames | backend/routes/records.js:18 | A name is kept iff it is in the directory listing and ends with ".json". |
| Records.JsonNamesSingle | backend/routes/records.js:18 | A single name is kept exactly when it ends with ".json". |
| Records.JsonNamesAppend | backend/routes/records.js:18 | The filter distributes over concatenation, so the kept names stay in directory order, each as often as listed. |
| Records.ReadAll | backend/routes/records.js:19-22 | Reading fails iff some listed file is corrupt. Otherwise the i-th record is the content of the i-th file. |
| Records.RecordStore.constructor | backend/routes/records.js:6-11 | The records directory starts empty and valid. |
| Records.RecordStore.Save | backend/routes/records.js:33-57 | A missing body gives 400 and writes nothing. Otherwise the body is stored under `FileName(TimestampFor(...))`, replacing any file of that name. A new name is appended to the listing, and the reply names the file. |
| Records.RecordStore.Get | backend/routes/records.js:60-77 | A missing file gives 404 and an unreadable one 500. Otherwise it returns exactly the stored record. |
| Records.RecordStore.List | backend/routes/records.js:14-30 | The listing succeeds iff every `.json` file can be read, and is then the `.json` records sorted newest first. Otherwise it is 500 "获取记录失败". |
| Records.ListedRecordsAreTheJsonFiles | backend/routes/records.js:16-23 | The list is a permutation of the `.json` files' records and contains every such file's record. It is newest first when every timestamp parses. |
| Records.SaveThenGet | backend/routes/records.js:42-72 | Saving a record and getting it by its dash-replaced timestamp returns that record. |
| ApiService.NatText | frontend/src/api/apiService.js:68 | The status code is written as a non-empty string of decimal digits. |
| ApiService.NatTextValue | frontend/src/api/apiService.js:68 | The digits of the status code denote exactly that number, with no leading zero. |
| ApiService.GenerateContent | frontend/src/api/apiService.js:38-70 | A 2xx answer is returned as the listing and a network failure rethrows its message. A non-2xx answer with an `error` throws "服务器错误: " plus that error. A failure body without one returns its `fallbackData`; any other non-2xx body throws the Axios status error. It returns a listing exactly in the 2xx and fallback cases. |
| ApiService.GenerateRouteFailuresThrow | frontend/src/api/apiService.js:57-65 | Both failures the generate route sends (400, and 500 with `fallbackData`) make the client throw the server error. The route's `fallbackData` is never returned. |
| ApiService.TranslateContentAsWritten | frontend/src/api/apiService.js:79-95 | As written, every call throws the reference error for the undeclared `API_BASE_URL`. |
| ApiService.TranslateAsWrittenLosesTranslation | frontend/src/api/apiService.js:81 | For a server answering 200 with a translation, the code as written throws, while the corrected call returns the translation. |
| ApiService.TranslateContent | frontend/src/api/apiService.js:79-95 | A network failure throws. A non-ok answer returns the original content, and an ok answer returns the body as the translation. |
| ApiService.TranslateRouteFailureKeepsContent | frontend/src/api/apiService.js:89-92 | Every non-2xx answer, whatever its body, leaves the page with the content it sent. When the body is the route's failure carrying that content as `fallbackData`, this is the same listing. |
| ApiService.UploadImage | frontend/src/api/apiService.js:8-28 | A 2xx answer returns its body. Any failure returns `{success: false, error: message, path: null}` and never throws. |
| ApiService.SaveRecord | frontend/src/api/apiService.js:102-111 | A 2xx answer returns the server's body. Any failure returns `{success: false, error}`. |
| ApiService.GetRecords | frontend/src/api/apiService.js:117-125 | A listing answer returns its records; any rejected call returns []. |
| ApiService.GetRecordsMatchesRoute | frontend/src/api/apiService.js:117-125 | The page sees exactly the records the list route sends, or [] when that route answers 500. |
| Entries.LookupFound | frontend/src/components/ItemSpecifics.jsx:71 | In an object with unique keys, each entry's key looks up that entry's value. |
| Entries.LookupAbsent | frontend/src/components/ItemSpecifics.jsx:65-66 | A key is absent iff no entry has it. |
| Entries.Put | frontend/src/components/ItemSpecifics.jsx:26-50 | After assignment the key maps to the value and every other key keeps its value. A new key is appended; an existing key keeps the length. |
| Entries.PutInPlace | frontend/src/components/ItemSpecifics.jsx:26-50 | Assignment keeps keys unique, and replaces the value in place at that key's position and nowhere else. |
| Entries.Remove | frontend/src/components/ItemSpecifics.jsx:66 | After `delete` the key is absent and every other key keeps its value. Every remaining entry was in the object. Deleting an absent key changes nothing. |
| Entries.RemoveAt | frontend/src/components/ItemSpecifics.jsx:66 | On an object, deleting the key at position i removes exactly that entry. The entries before and after it keep their order. |
| Entries.RemovePresentShrinks | frontend/src/components/ItemSpecifics.jsx:66 | Deleting a present key from an object removes exactly one entry. |
| Entries.Lines | frontend/src/components/ItemSpecifics.jsx:72 | There is one `key: value` line per entry, in entry order. |
| ItemSpecifics.FormatSpecifics | frontend/src/components/ItemSpecifics.jsx:70-74 | An undefined or empty map gives "", and a one-entry map gives its single line. |
| ItemSpecifics.FormatSplitsIntoLines | frontend/src/components/ItemSpecifics.jsx:70-74 | Without newlines in keys and values, splitting the text on "\n" yields exactly one line per entry, in order. |
| ItemSpecifics.FormatAfterAdd | frontend/src/components/ItemSpecifics.jsx:47-74 | Adding a new attribute appends exactly "\n" and its line to the copied text. |
| ItemSpecifics.FormatAfterDelete | frontend/src/components/ItemSpecifics.jsx:64-74 | Deleting the attribute at position i drops exactly its line from the copied text. The other lines keep their order. |
| ItemSpecifics.Editor.constructor | frontend/src/components/ItemSpecifics.jsx:13-17 | All five state fields start empty or false. |
| ItemSpecifics.Editor.StartEdit | frontend/src/components/ItemSpecifics.jsx:19-22 | `editKey` and `editValue` take the clicked row's key and value; the add form is untouched. |
| ItemSpecifics.Editor.SetEditValue | frontend/src/components/ItemSpecifics.jsx:152-153 | Only `editValue` changes. |
| ItemSpecifics.Editor.SaveEdit | frontend/src/components/ItemSpecifics.jsx:24-34 | An empty `editKey` does nothing. Otherwise `onChange` gets a copy mapping `editKey` to the untrimmed value, or an unchanged copy for a blank value (the key is not deleted). The edit state is then cleared. |
| ItemSpecifics.Editor.CancelEdit | frontend/src/components/ItemSpecifics.jsx:36-39 | The edit state is cleared and the map is untouched. |
| ItemSpecifics.Editor.StartAdd | frontend/src/components/ItemSpecifics.jsx:41-45 | The add form opens with empty fields. |
| ItemSpecifics.Editor.SetNewKey | frontend/src/components/ItemSpecifics.jsx:111 | Only `newKey` changes. |
| ItemSpecifics.Editor.SetNewValue | frontend/src/components/ItemSpecifics.jsx:118 | Only `newValue` changes. |
| ItemSpecifics.Editor.SaveAdd | frontend/src/components/ItemSpecifics.jsx:47-56 | `onChange` fires iff both name and value are non-blank, with a copy assigning the name to the value; the form then closes and clears. Otherwise the form is unchanged. |
| ItemSpecifics.Editor.CancelAdd | frontend/src/components/ItemSpecifics.jsx:58-62 | The add form closes and clears. |
| ItemSpecifics.Editor.Delete | frontend/src/components/ItemSpecifics.jsx:64-68 | `onChange` gets the map without the key, with every other value kept. An absent key gives an equal map. On an object, a present key gives the map with exactly that entry removed and the rest in order. |
| BulletPoints.CopyTextSplitsIntoPoints | frontend/src/components/BulletPoints.jsx:37 | The copy text is `points` (not the buffer) joined by "\n". Without newlines in points it splits back into exactly the points. |
| BulletPoints.CopyText | frontend/src/components/BulletPoints.jsx:37 | The copy text is empty for no points and is the point itself for one point. With several points it starts with the first point and "\n". |
| BulletPoints.Editor.constructor | frontend/src/components/BulletPoints.jsx:13-14 | The panel starts read-only with the buffer equal to `points`. |
| BulletPoints.Editor.StartEditing | frontend/src/components/BulletPoints.jsx:65 | Edit mode starts and the buffer is unchanged. |
| BulletPoints.Editor.Edit | frontend/src/components/BulletPoints.jsx:16-20 | The buffer keeps its length, `index` takes the value, and every other position is unchanged. |
| BulletPoints.Editor.Save | frontend/src/components/BulletPoints.jsx:22-25 | `onChange` receives exactly the buffer and edit mode ends. |
| BulletPoints.Editor.Cancel | frontend/src/components/BulletPoints.jsx:27-30 | The buffer is reset to `points` and edit mode ends. |
| BulletPoints.EditThenCancel | frontend/src/components/BulletPoints.jsx:16-30 | Editing and then cancelling leaves the buffer equal to `points`. |
| BulletPoints.NewPointsAdoptedOnCancel | frontend/src/components/BulletPoints.jsx:14-30 | The buffer keeps the points from mount until cancel adopts the current ones. |
| Text.TrimEmptyIffBlank | frontend/src/components/ItemSpecifics.jsx:27-48 | `s.trim()` is falsy exactly when `s` is whitespace only. |
| Text.JoinAppend | frontend/src/components/ItemSpecifics.jsx:73 | Joining one more part adds the separator and that part at the end. |
| Text.SplitJoin | frontend/src/components/BulletPoints.jsx:37 | Joining on a character that no part contains, then splitting on it, gives back the parts. |
| Text.Prefix | backend/services/openai.js:89 | `substring(0, n)` is a prefix of length min(n, \|s\|). |
| Text.ReplaceChar | backend/routes/records.js:43 | A global one-character replace keeps the length, replaces every occurrence and changes nothing else. |
| App.Toggle | frontend/src/App.jsx:48-53 | The section flips and every other section keeps its state. |
| App.ToggleTwice | frontend/src/App.jsx:48-53 | Toggling a section twice restores the sections. |
| App.AfterGenerate | frontend/src/App.jsx:127-132 | Title, description and bullet points become expanded and every other section is unchanged. |
| App.GeneratedSections | frontend/src/App.jsx:93-132 | After a successful generation exactly title, description, bullet points and tips are expanded. |
| App.ExtraLine | frontend/src/App.jsx:119 | The extra-information line is empty iff `extraInfo` is, and otherwise is "其他信息: " followed by it. |
| App.RequestText | frontend/src/App.jsx:114-120 | The text has the title after its label and the description after its label. Next come the blank separator line and the extra-information line, then the closing indentation. An empty `extraInfo` contributes nothing, so the "其他信息" label appears only for a non-empty one. |
| App.SubmittedTextIsNeverMissing | frontend/src/App.jsx:114-124 | The text a submit sends is always truthy, so the generate route never answers it with 400. |
| App.CategoryText | frontend/src/App.jsx:449 | A string category is shown as it is. A one-element path shows that element and an empty path shows "". |
| App.CategoryTextAppend | frontend/src/App.jsx:449 | One more category level appends " > " and the level. |
| App.KeywordsText | frontend/src/App.jsx:441 | The keywords box is empty without keywords and is the keyword itself for one keyword. With several it starts with the first keyword and ", ". |
| App.KeywordsTextAppend | frontend/src/App.jsx:441 | One more keyword appends ", " and that keyword. |
| App.TipsShownOnlyForEbay | frontend/src/App.jsx:464 | Tips are never shown for a platform other than "ebay". For eBay they are shown exactly when there are tips. |
| App.TipsText | frontend/src/App.jsx:467 | The tips box is empty without tips and is the tip itself for one tip. With several it starts with the first tip and "\n". |
| App.TipsTextSplitsIntoTips | frontend/src/App.jsx:467 | Without newlines in the tips, the tips text splits back into exactly the tips. |
| App.TranslatedView | frontend/src/App.jsx:433-468 | Translated boxes appear iff `translateAll`. With no translation every box shows the empty value. |
| App.ErrorText | frontend/src/App.jsx:135 | The error's message is shown when it is non-empty, otherwise the fixed fallback. |
| App.Page.constructor | frontend/src/App.jsx:21-46 | Each `useState` starts at its initial value: only tips expanded, amazon, openai, en. |
| App.Page.ToggleSection | frontend/src/App.jsx:48-53 | Only the sections change, by `Toggle`. |
| App.Page.InputChange | frontend/src/App.jsx:55-58 | Only the named form field changes. |
| App.Page.ImageChange | frontend/src/App.jsx:60-69 | With no file nothing changes. Otherwise the image and its preview are replaced together. |
| App.Page.RemoveImage | frontend/src/App.jsx:312 | The image and preview are both cleared. |
| App.Page.SetPlatform | frontend/src/App.jsx:259-276 | Only the platform changes. |
| App.Page.SetModel | frontend/src/App.jsx:289 | Only the model changes. |
| App.Page.BulletPointsChange | frontend/src/App.jsx:71-76 | Only the result's bullet points change. |
| App.Page.ItemSpecificsChange | frontend/src/App.jsx:78-83 | Only the result's item specifics change. |
| App.Page.StartSubmit | frontend/src/App.jsx:88-101 | Loading starts, and error, result and translation are cleared. Sections are reset to only tips expanded. |
| App.Page.FinishSubmit | frontend/src/App.jsx:124-138 | A listing becomes the result and expands title, description and bullets. An error sets the error text and leaves the sections reset. |
| App.Page.Submit | frontend/src/App.jsx:85-139 | The request is the built text, the platform, the uploaded image's path (if any) and the model. The new state follows ApiService.GenerateContent's outcome as in FinishSubmit; form, platform and model are unchanged. |
| App.Page.StartTranslate | frontend/src/App.jsx:144-145 | Translating starts and the error is cleared. |
| App.Page.FinishTranslate | frontend/src/App.jsx:149-172 | A translation is stored, `translateAll` becomes true and every section expands. An error sets the error text and changes nothing else. |
| App.Page.Translate | frontend/src/App.jsx:141-173 | With no result nothing happens. Otherwise the result is sent with the target language and model, and the state follows ApiService.TranslateContent's outcome. |
| App.Page.TranslateAsWritten | frontend/src/App.jsx:141-173 | Over `translateContent` as written, a page with a result sends nothing and ends showing the `API_BASE_URL` reference error. The translation, the translated view and the sections stay as they were. |
| App.Page.ChangeTargetLanguage | frontend/src/App.jsx:377-380 | The language changes and `translateAll` is cleared; nothing else changes. |
| App.Page.SaveRecord | frontend/src/App.jsx:175-194 | With no result nothing is sent. Otherwise the record of form, result, translation, platform, model and the current time is sent, and the page state is unchanged. |
| App.SavedRecordFileName | frontend/src/App.jsx:185 | The record the page saves is stored under its own timestamp with the colons replaced. |

## Left out

- File system, network, SDKs and `JSON`: all abstract parameters. Not modelled:
  - SDK retries (`maxRetries: 3`), timeouts, model names and temperatures;
  - the fixed prose of the prompts (only the platform-dependent fragments are kept);
  - `path.join` normalisation and path traversal through a record id;
  - what `JSON.parse` does with malformed text beyond "it throws".
- `Records.RecordStore.Save`: a failure of `writeFileSync` (the 500 at backend/routes/records.js:53-56) is not modelled; the store's writes always succeed.
- The save route's 400 is modelled. Under `express.json()` the body is always an object, so that 400 cannot occur in this server.
- JSON `null` and non-string field values are not modelled. A missing listing field stands for its empty value, which every reader treats alike.
- `Object.entries` lists integer-like keys first in ascending order. That ordering is not modelled; attribute names are treated as ordinary string keys. Inherited properties on `languageMap` (`"constructor"`, say) are not modelled either.
- Strings are sequences of Unicode scalar values. `substring` counts UTF-16 code units, so a title cut falls within an astral character differently.
- `Records.SortNewestFirst`: it is a stable insertion sort. When some timestamp is not a date the comparator returns NaN and the engine's order is implementation-defined. In that case only the permutation is claimed, not the order.
- The order `readdirSync` returns is the store's `names` sequence: a new file is appended and a rewritten file keeps its place.
- An Axios answer in 2xx whose body is not a list makes `getRecords` return that body. `ApiService.GetRecords` returns [] for it.
- `alert`, `console`, clipboard, timers, JSX rendering and React's batching and scheduling are not modelled. Each handler is one step from the state before it to the state after its `finally`.
- App.Page.Translate: models `handleTranslate` over the corrected `translateContent`, with the base URL defined as `/api`. As written, every translation ends in the `API_BASE_URL` reference error instead; `App.Page.TranslateAsWritten` states that behaviour (see Findings).
- `saveRecord` never throws, so `handleSaveRecord`'s alert shows success even when saving failed and its catch branch never runs. The alert is not modelled.
- The `useLocalMode` branches of both AI routes (backend/routes/ai.js:36-57, 120-158) are dead code, because the flag is the constant `false`. They are left out.
- The upload route and image resizing (backend/middleware/upload.js, backend/server.js) are not part of this model. The upload is the function `string -> Http<UploadReply>` the page is given.
- The health route, the server wiring and the Tailwind configuration are not part of this model.
- `ContentBox.jsx` and `CopyButton.jsx` are pure rendering and clipboard code. They are not part of this model; the texts they show are modelled by `App.KeywordsText`, `App.CategoryText`, `App.TipsText` and `BulletPoints.CopyText`.

## Findings

| source | as written | input that shows it | evidently intended | confidence | as-written member | corrected member |
|---|---|---|---|---|---|---|
| frontend/src/api/apiService.js:81 | `translateContent` builds its URL from `API_BASE_URL`, which is declared nowhere in the frontend, so every call throws a ReferenceError before any request is made | any call, e.g. a server that would answer 200 with a translation | the same `/api` base as the other calls (frontend/src/api/client.js:4), an ok answer returning the translation and a non-ok one the original content | not executed; a build-time define of `API_BASE_URL` outside the shown files would change this | ApiService.TranslateContentAsWritten, ApiService.TranslateAsWrittenLosesTranslation | ApiService.TranslateContent |
