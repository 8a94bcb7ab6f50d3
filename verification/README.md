# Nemora storefront — a Dafny model

This project models the logic of the Nemora storefront: a small Express
server and the React pages of a custom-apparel shop.

**Server side** (`server/index.js`):

- Uploads are stored under a sanitised, time-stamped name (`POST /upload`).
- An order's `fileUrl` is mapped back to a file in the uploads directory, and that file becomes the e-mail attachment.
- Orders are created (`POST /orders`) and shown as a public HTML page (`GET /orders/:id`).
- Every order is announced on up to three channels:
  - a webhook POST;
  - a Telegram message;
  - an e-mail with a plain-text and an HTML body.
- `POST /chat` normalises the conversation history and fails over across the AI providers.

**Client side** (`src/`):

- the order form with its field validators and error map (Contact page);
- the catalogue filter and the link from the catalogue to the order form (Products page);
- the canned style assistant;
- the language context with its translation tables;
- the gallery lightbox;
- the product page and the shopping bag;
- the theme context.

Everything is stated on immutable values. Each handler is a pure function from the old state to the new one. Outside effects are parameters:

- the clock, the random id suffix and the process environment;
- the URL parser;
- the set of files on disk;
- each AI provider's HTTP outcome;
- the cart store's subtotal.

JavaScript semantics are written out where the code relies on them:

- truthiness and `||` fall-backs (`Js.Truthy`, `Js.OrStr`, `Js.OrJson`, `Types.TextOr`);
- `String()` (`Js.ToStr`);
- `trim()`, which strips JavaScript white space (`Strings.Trim`);
- truncating `%` (`Gallery.JsRem`);
- `encodeURIComponent` and `URLSearchParams` (module `Query`).

Module layout, one per source unit:

| module | source |
|---|---|
| Uploads, Render, Notify, Gateway, Orders | server/index.js |
| OrderData, Js | the order record and JSON values |
| Strings, Query | the string and URL helpers |
| Contact | src/pages/Contact.tsx |
| Products | src/pages/Products.tsx |
| Assistant | src/components/StyleAssistant.tsx |
| Language | src/contexts/LanguageContext.tsx |
| Gallery | src/pages/Gallery.tsx |
| ProductDetail | src/pages/ProductDetail.tsx |
| Cart | src/pages/Cart.tsx |
| Theme | src/contexts/ThemeContext.tsx |
| Types | the shared Product and CartItem records |

One behaviour of the code is easy to misread:

- **callProviders** returns the first provider whose call does not throw, even when its reply is empty. `/chat` then answers 500 without trying the remaining providers (`Gateway.ReplyAfterFailover`).

## Model

| member | source | states |
|---|---|---|
| Uploads.SanitizeName | server/index.js:47 | every character outside `[a-zA-Z0-9._-]` becomes `_`, all others are kept in place, and the length is unchanged |
| Uploads.StoredFileName | server/index.js:48 | the stored name `<Date.now()>-<sanitised name>`; its properties are stated by `Uploads.StoredFileNameParts` and `Uploads.StoredNameIsPlain` |
| Uploads.SanitizeFixesExactlySafeNames | server/index.js:47 | sanitising leaves a name unchanged exactly when every character is already allowed |
| Uploads.SanitizeIdempotent | server/index.js:47 | sanitising twice equals sanitising once |
| Uploads.StoredFileNameParts | server/index.js:48 | the stored name has only allowed characters; cutting it at its first `-` gives back the decimal timestamp and the sanitised original name |
| Uploads.HandleUpload | server/index.js:407-414 | no file gives 400 "No file uploaded" and stores nothing; otherwise the stored name is returned under `<base>/uploads/` together with the original name |
| Uploads.Basename | server/index.js:176 | `path.basename` never contains `/` |
| Uploads.BasenameOfLastSegment | server/index.js:176 | the basename of `prefix/name` is `name` for a non-empty single segment |
| Uploads.ExtName | server/index.js:185 | `path.extname` is empty or a final `.`-led suffix shorter than the name and holding no other dot |
| Uploads.DotDotEscapesUploads | server/index.js:167-179 | as written, a non-URL `fileUrl` of `..` resolves to the parent of the uploads directory |
| Uploads.ResolveUploadPathAsWritten | server/index.js:167-179 | `resolveUploadPath` as written: nothing for a falsy URL or an empty basename, otherwise `path.join` of the uploads directory and the basename; stated by `Uploads.DotDotEscapesUploads` and `Uploads.ResolveAgreesExceptDotNames` |
| Uploads.ResolveUploadPath | server/index.js:167-179 | corrected resolver: a falsy URL gives nothing; any result is the uploads directory plus one plain name, which is the URL path's basename; every plain basename resolves |
| Uploads.ResolveAgreesExceptDotNames | server/index.js:167-179 | the corrected resolver equals the as-written one except on the basenames `.` and `..` |
| Uploads.UploadUrlResolvesToStoredFile | server/index.js:407-414 | the URL `/upload` returns resolves back to the stored file, whether or not the URL parser accepts it |
| Uploads.StoredNameIsPlain | server/index.js:48 | a stored name is a plain single segment, neither empty nor `.`/`..` |
| Uploads.PlainNameUrlResolves | server/index.js:170-178 | a URL ending in `/name` with a plain name resolves to `name` in the uploads directory, through either branch of the URL parse |
| Uploads.OrderAttachment | server/index.js:181-194 | on the corrected resolver: there is an attachment exactly when the resolved path exists; it lies in the uploads directory; it has a content id `design-<id>` exactly for image extensions; its name is `fileName` or else the basename |
| Uploads.OrderAttachmentAsWritten | server/index.js:181-194 | `getOrderAttachment` as written: there is an attachment exactly when the as-written path exists; it is that path; content id `design-<id>` exactly for image extensions; named `fileName` or else the basename |
| Uploads.DotDotAttachesParent | server/index.js:167-194 | as written, an order whose `fileUrl` is `..` has the parent of the uploads directory as its attachment whenever that directory exists |
| Uploads.AttachmentsAgreeExceptDotNames | server/index.js:167-194 | the corrected and as-written attachments are equal for every order whose URL basename is neither `.` nor `..` |
| Uploads.ImageUploadIsInline | server/index.js:190-192 | an existing `.png` upload is always attached inline with `design-<id>` |
| Render.EscapeText | server/index.js:106-113 | escaped text holds no raw `<`, `>` or `"`, and every `&` in it starts one of the four entities |
| Render.EscapeHtml | server/index.js:106-113 | `escapeHtml(v)` escapes `String(v \|\| '')`; stated by `Render.EscapeText` and `Render.EscapeHtmlRoundTrip` |
| Render.EscapeTextUnchanged | server/index.js:106-113 | escaping never shortens text and leaves it unchanged exactly when it holds none of `&<>"` |
| Render.UnescapeEscape | server/index.js:106-113 | decoding the four entities inverts escaping |
| Render.EscapeHtmlRoundTrip | server/index.js:106-113 | `escapeHtml(v)` decodes back to `String(v \|\| '')` |
| Render.StripAngles | server/index.js:446 | the result has no angle brackets, is never longer than the input, and equals the input exactly when the input had none |
| Render.StripAnglesKeepsOthers | server/index.js:446 | stripping keeps every other character in order (a subsequence) and as often as it occurs, and drops every angle bracket |
| Render.StripAnglesIdempotent | server/index.js:446 | stripping twice equals stripping once |
| Render.Safe | server/index.js:446 | `safe` output never holds an angle bracket |
| Render.SafeShowsPlainText | server/index.js:446 | `safe` shows a present string without brackets verbatim |
| Render.NotificationLinesContent | server/index.js:83-101 | the eighteen lines: header, id, created, each detail or `-` when falsy, file, and order or `-` |
| Render.BuildNotificationMessage | server/index.js:81-104 | the message is its lines joined by newlines; stated by `Render.NotificationLinesContent` and `Render.NotificationMessageSplits` |
| Render.NotificationMessageSplits | server/index.js:103 | when no value contains a newline, splitting the message on newlines gives back its lines |
| Render.TextAndEmailAgree | server/index.js:83-134 | text line `i+1` equals e-mail row `i` rendered as `label: value`; the only exception is a falsy file URL, which the e-mail shows as `-` |
| Render.EmailLinks | server/index.js:138-140 | only File and Order rows are links: File when the URL is truthy and not `-`, Order when the order URL is neither empty nor `-` |
| Render.RowContainsEscapedValue | server/index.js:137-141 | a row's `<tr>` contains its escaped value |
| Render.EmailShowsEveryRowEscaped | server/index.js:115-162 | the e-mail contains every row's value escaped, and that text decodes back to the value |
| Render.EmailHtmlContainsParts | server/index.js:152-162 | the e-mail body contains the table rows and the preview block |
| Render.BuildEmailHtml | server/index.js:115-162 | the e-mail body for an order and preview id; stated by `Render.EmailShowsEveryRowEscaped`, `Render.EmailHtmlContainsParts` and `Render.EmailPreview` |
| Render.PreviewShowsImage | server/index.js:144-151 | a non-empty content id yields an `<img src="cid:…">` with the escaped id |
| Render.EmailPreview | server/index.js:144-162 | the preview block is present exactly when a content id is given, and the e-mail then shows that image |
| Render.PageValuesAngleFree | server/index.js:446-482 | none of the 21 values interpolated into the order page holds an angle bracket |
| Render.OrderPageShowsDetail | server/index.js:467-479 | the page shows each detail field's label followed directly by its `safe` value |
| Render.OrderPageLinks | server/index.js:480-481 | the page links the file URL, labels it with `fileName` or else the URL, and links the order URL |
| Render.OrderPageHtml | server/index.js:446-482 | the order page interpolating 21 `safe` values; stated by `Render.PageValuesAngleFree`, `Render.OrderPageShowsDetail` and `Render.OrderPageLinks` |
| Notify.NumberOf | server/index.js:24 | `Number` gives a number exactly when the trimmed text is all digits (blank included), and a non-blank digit string reads as its decimal value |
| Notify.LoadNotifyConfig | server/index.js:16-27 | the recipient is never empty (it has a default); the SMTP port defaults to 587; `secure` is on exactly for a case-insensitive `true` |
| Notify.ChannelsFromEnv | server/index.js:16-26 | with no environment the webhook and Telegram are off and e-mail is off because there is no SMTP host |
| Notify.TransportFor | server/index.js:200-207 | transport options carry host, port and secure; credentials are present only when both user and password are set |
| Notify.GetEmailTransporter | server/index.js:196-211 | no transport without an SMTP host; otherwise the cached one, or a new one that becomes the cache |
| Notify.TransporterReused | server/index.js:199-210 | a second request returns the same transport as the first |
| Notify.MailContents | server/index.js:213-231 | the mail goes to `EMAIL_TO` from the first non-empty sender, with the subject, the text message and the HTML body; it carries the attachment and preview id when there is one, and the reply-to when configured |
| Notify.MailFor | server/index.js:213-231 | the mail for an order; stated by `Notify.MailContents` |
| Notify.SendEmailNotification | server/index.js:213-233 | mail is sent exactly when a transport and a recipient exist, and it is the mail for that order |
| Notify.Channels | server/index.js:235-264 | the channel list has one entry per request, in order |
| Notify.ChannelsConcat | server/index.js:235-264 | channels distribute over concatenation |
| Notify.AssembleChannels | server/index.js:239-264 | the fan-out uses exactly the switched-on channels, in the order webhook, Telegram, e-mail |
| Notify.SelectedChannels | server/index.js:239-264 | the switched-on channels in the order webhook, Telegram, e-mail; the reference `Notify.AssembleChannels` and `Notify.NotificationChannels` compare against |
| Notify.SlotChannels | server/index.js:239-264 | one optional request per slot yields that slot's channel |
| Notify.AssembleTargets | server/index.js:239-264 | the webhook gets `{text, order}` with a bearer token when configured; Telegram gets the chat id and text at its bot URL; the e-mail carries the same text |
| Notify.NotificationChannels | server/index.js:235-268 | for an order, the channels that fire follow the configuration, and the e-mail is the order's mail with the same text as the message |
| Notify.PlanNotifications | server/index.js:235-264 | the fan-out for one order: the requests and the updated transport cache; stated by `Notify.NotificationChannels` |
| Notify.SettleAll | server/index.js:266-268 | every request is attempted, and each one's outcome is recorded, whatever the others do |
| Gateway.NormalizeProvider | server/index.js:271-277 | each provider is chosen exactly by its aliases, case-insensitively; anything else is `auto` |
| Gateway.NormalizeProviderName | server/index.js:271-277 | each provider's own name selects it |
| Gateway.ProviderSequence | server/index.js:383-387 | a pinned provider alone, or Claude, OpenAI, Gemini for `auto`; never empty and never repeats |
| Gateway.TakeLast | server/index.js:289 | `slice(-6)` is a suffix of length `min(6, length)` |
| Gateway.ItemTurn | server/index.js:290-294 | the role is assistant exactly for the literal `assistant`; the content is trimmed |
| Gateway.KeepNonEmpty | server/index.js:295 | the filter keeps only non-empty turns, each drawn from the input |
| Gateway.KeepNonEmptyIsSubsequence | server/index.js:295 | the filter keeps the non-empty turns in order, each as often as it occurs, and no empty turn |
| Gateway.KeepNonEmptyKeepsAll | server/index.js:295 | when no turn is empty the filter drops nothing |
| Gateway.RecentTurns | server/index.js:288-294 | the mapped history has at most six turns |
| Gateway.NormalizeHistory | server/index.js:286-296 | a non-array gives `[]`; the result has at most six trimmed, non-empty turns |
| Gateway.NormalizeHistoryDrawsFromRecent | server/index.js:286-296 | the normalised history is a subsequence of the last six items' turns holding each non-empty one as often as it occurs and no empty one |
| Gateway.CallAdapter | server/index.js:298-381 | a missing key fails with "<Provider> API key missing"; a successful reply is trimmed |
| Gateway.MissingKeyIgnoresOutcome | server/index.js:299 | with a missing key the HTTP outcome is never consulted |
| Gateway.FailoverFirstSuccess | server/index.js:389-405 | failover succeeds exactly when some provider does, with the first such provider; otherwise it fails with the last error, or "No AI provider configured" for none |
| Gateway.FailoverFrom | server/index.js:389-405 | the reference failover carrying the last error; stated by `Gateway.FailoverFirstSuccess` |
| Gateway.Failover | server/index.js:389-405 | failover over a provider sequence; stated by `Gateway.FailoverFirstSuccess` and `Gateway.CallProviders` |
| Gateway.CallProviders | server/index.js:389-405 | the loop computes the failover reference: it calls a prefix of the sequence, every call but the last failed, and all are called on failure |
| Gateway.ChatMessage | server/index.js:64 | the request message is trimmed |
| Gateway.ReplyAfterFailover | server/index.js:70-77 | an answer is the first successful provider's non-empty reply; its empty reply is a 500 even if a later provider would answer; total failure reports the last error or a generic one |
| Gateway.ReplyFor | server/index.js:70-77 | the reply for a failover result: an empty reply or an error is a 500; stated by `Gateway.ReplyAfterFailover` |
| Gateway.AnswerChat | server/index.js:65-78 | `/chat` after reading the message and history; stated by `Gateway.ChatOutcomes` |
| Gateway.HandleChat | server/index.js:63-79 | the `/chat` handler on the request body; stated by `Gateway.ChatOutcomes` and `Gateway.NoKeysNoAnswer` |
| Gateway.ChatOutcomes | server/index.js:63-79 | a blank message is refused with 400 before any provider; an answer is trimmed and non-empty |
| Gateway.NoKeysNoAnswer | server/index.js:389-405 | with no API key at all, `/chat` fails with the last provider's key error |
| Orders.CreateOrderContract | server/index.js:416-438 | a request without truthy `fileUrl` and `details` gets 400 and stores nothing; otherwise exactly one record is stored under a fresh id, with its URL and creation time |
| Orders.CreateOrder | server/index.js:416-438 | the `/orders` handler; stated by `Orders.CreateOrderContract` and `Orders.CreatedOrderPageShowsDetails` |
| Orders.OrderIdsDifferAcrossTime | server/index.js:421 | ids made at different milliseconds differ |
| Orders.ViewOrder | server/index.js:440-444 | 404 "Order not found" exactly when no order is stored under the id, taken as a file name in the orders directory; otherwise the order page |
| Orders.CreatedOrderPageShowsDetails | server/index.js:416-479 | after creating an order, its page shows every detail field under its label |
| Strings.Trim | server/index.js:64 | the result has no white space at either end, is never longer than the input, and is empty exactly for blank text |
| Strings.TrimRemovesEdgeSpace | server/index.js:64 | the trimmed text is a slice of the input with only white space outside it, so `trim` removes exactly the edge white space |
| Strings.TrimIdempotent | server/index.js:292 | trimming twice equals trimming once |
| Strings.ToLowerIdempotent | server/index.js:272 | lower-casing twice equals lower-casing once |
| Strings.NatToStringRoundTrip | server/index.js:48 | the decimal form of `Date.now()` reads back as the same number |
| Strings.SplitJoin | server/index.js:103 | splitting a join of parts without the separator gives back the parts |
| Query.EncodeUriComponent | src/pages/Products.tsx:163 | the encoding is at least as long as the input and holds only `%` and unreserved characters |
| Query.EncodeFixesUnreserved | src/pages/Products.tsx:163 | a string is its own encoding exactly when every character is unreserved |
| Query.DecodeEncode | src/pages/Contact.tsx:117-119 | form decoding inverts `encodeURIComponent` on ASCII text |
| Query.DecodePlain | src/pages/Contact.tsx:117-119 | text without `%` or `+` decodes to itself |
| Strings.Lookup | src/pages/Contact.tsx:117-119 | `get(name)`, and the table lookup behind `t`, is absent exactly when no pair has that name, and otherwise is the value of a pair with that name |
| Query.ParseSearchPieces | src/pages/Contact.tsx:117-119 | a `?`-led query of non-empty pieces gives one pair per piece |
| Query.ParseEncodedPair | src/pages/Products.tsx:163 | `name=encodeURIComponent(value)` reads back as `(name, value)` for ASCII values |
| Query.ParamHasNoAmpersand | src/pages/Products.tsx:163 | an encoded parameter contains no `&` |
| Contact.IsEmailMatchesPattern | src/pages/Contact.tsx:144 | the computed e-mail check accepts exactly the strings `^[^@\s]+@[^@\s]+\.[^@\s]+$` matches |
| Contact.PositiveIffNonZeroDigit | src/pages/Contact.tsx:172 | a digit string is positive exactly when some digit is not `0` |
| Contact.ValidateField | src/pages/Contact.tsx:136-179 | only the nine checked fields can have a message |
| Contact.RequiredFieldRule | src/pages/Contact.tsx:139-176 | name, address, brand name and size are refused exactly when blank |
| Contact.ContactFieldRules | src/pages/Contact.tsx:142-151 | e-mail and phone pass exactly when non-blank and the trimmed text matches their patterns |
| Contact.OptionalFieldRules | src/pages/Contact.tsx:158-174 | blank website, social and quantity pass; otherwise the website passes exactly when it is a URL, the social link exactly when it is a handle or a URL, and the quantity exactly when it is all digits with a non-zero digit |
| Contact.IsHandle | src/pages/Contact.tsx:166 | the pattern `^@?[\w.]{2,}$`; stated by `Contact.HandleExamples` and used by `Contact.OptionalFieldRules` |
| Contact.HandleExamples | src/pages/Contact.tsx:166 | the `@` is optional and at least two word characters or dots must follow: `@nemora.eg` passes, `@a`, `@@ab` and `nemora eg` do not |
| Contact.IsPhone | src/pages/Contact.tsx:149 | the pattern `^[0-9+\s()-]{7,}$`; used by `Contact.ContactFieldRules` |
| Contact.IsPositiveCount | src/pages/Contact.tsx:172 | `/^\d+$/.test(t) && Number(t) > 0`; stated by `Contact.CountRule` |
| Contact.CountRule | src/pages/Contact.tsx:172 | the quantity regex-and-number rule equals "digits with a non-zero digit" |
| Contact.ErrorsFor | src/pages/Contact.tsx:196-205 | the error map has an entry exactly for the listed fields whose rule reports a message, holding that message |
| Contact.ValidateAllFields | src/pages/Contact.tsx:194-208 | the form is valid exactly when the new error map is empty; the map holds exactly the failing fields with their messages |
| Contact.ValidIffEveryFieldPasses | src/pages/Contact.tsx:194-208 | valid exactly when no field's rule reports a message |
| Contact.ClearFieldError | src/pages/Contact.tsx:181-188 | the field's error goes; a map without a non-empty entry for it is returned unchanged; other fields are untouched |
| Contact.HandleFieldBlur | src/pages/Contact.tsx:210-217 | blur records the field's message, or clears its error when it passes; nothing else changes |
| Contact.ReviseError | src/pages/Contact.tsx:190-192 | a message is set for the field, an empty one clears it, other fields untouched |
| Contact.HandleOrderChange | src/pages/Contact.tsx:219-231 | stores only that field, clears the status to info, and re-checks the field only when it already had an error |
| Contact.SubmitCheckedGuards | src/pages/Contact.tsx:291-306 | an upload in progress, an invalid form, a missing mail service or a missing form each stop the submit with their message and send nothing |
| Contact.SubmitCheckedOutcome | src/pages/Contact.tsx:307-336 | a sent form shows success, clears the upload and errors, and blanks the fields except the three catalogue choices; a failed send reports the error |
| Contact.SubmitGuards | src/pages/Contact.tsx:288-298 | submit always recomputes the error map first, and sends only a valid form |
| Contact.SubmitChecked | src/pages/Contact.tsx:291-336 | the submit once validity is known; stated by `Contact.SubmitCheckedGuards` and `Contact.SubmitCheckedOutcome` |
| Contact.HandleSubmit | src/pages/Contact.tsx:288-337 | the submit handler; stated by `Contact.SubmitGuards` |
| Contact.ParamOr | src/pages/Contact.tsx:117-119 | `get(name) \|\| fallback` equals the fallback exactly when the value is missing, empty or the fallback itself |
| Contact.ApplyQuery | src/pages/Contact.tsx:116-126 | the query sets shape, technique and embroidery (default `all`) and nothing else |
| Contact.SubmitLabel | src/pages/Contact.tsx:340-342 | the label for uploading outranks the one for sending, which outranks "Send Order" |
| Products.InitialFilters | src/pages/Products.tsx:12-17 | the controls start at `all` with an empty search; the category is `all` exactly when the query's is missing, empty or `all` |
| Products.FilterProducts | src/pages/Products.tsx:175-205 | a product is kept exactly when it matches, in catalogue order |
| Products.FilterKeepsOrder | src/pages/Products.tsx:175-205 | the matches form a subsequence of the catalogue |
| Products.Matches | src/pages/Products.tsx:175-205 | the filter callback; stated by `Products.AllChoicesKeepEverything`, `Products.TechniqueRule`, `Products.EmbroideryRule` and `Products.SearchRule` |
| Products.MatchesSearch | src/pages/Products.tsx:189-205 | the query occurs in the lower-cased Arabic name, English name or description; stated by `Products.SearchRule` |
| Products.Repeated | src/pages/Products.tsx:210-213 | the list repeats the matches five times, card `i` showing match `i mod n` keyed by `id-i-query` |
| Products.DisplayProducts | src/pages/Products.tsx:207-213 | the listed cards are the filtered matches repeated five times, with positional keys |
| Products.DisplayListsMatches | src/pages/Products.tsx:174-213 | nothing is listed exactly when no product matches; every listed card is a matching catalogue product |
| Products.UniqueKeysDistinct | src/pages/Products.tsx:212 | cards at different positions have different keys |
| Products.DisplayKeysDistinct | src/pages/Products.tsx:210-213 | the listed keys are pairwise distinct |
| Products.AllChoicesKeepEverything | src/pages/Products.tsx:177-192 | every choice `all` with a blank search keeps every product |
| Products.TechniqueRule | src/pages/Products.tsx:179-184 | an unset technique counts as print; a `both` product matches any choice; choosing `both` matches only `both` products |
| Products.EmbroideryRule | src/pages/Products.tsx:180-186 | an unset embroidery style counts as `none` |
| Products.SearchRule | src/pages/Products.tsx:189-205 | a blank search adds nothing; otherwise the lower-cased, trimmed query must occur in the Arabic name, the English name or the description |
| Products.ResetFilters | src/pages/Products.tsx:165-171 | reset returns the opening filters for the query `category=all` |
| Products.ContactQuery | src/pages/Products.tsx:163 | the order link's query starts with `?` |
| Products.ContactQuerySplits | src/pages/Products.tsx:163 | cutting the link's query at `&` gives back its three encoded pieces |
| Products.ContactQueryParses | src/pages/Products.tsx:163 | the link's query parses back into the three choices, in order |
| Products.ThreeChoicesRead | src/pages/Contact.tsx:116-126 | the contact page reads each of the three choices out of a query holding exactly them |
| Products.ContactReadsChoices | src/pages/Contact.tsx:116-126 | the order form reads back the catalogue's three choices from the link; an empty choice reads as `all` |
| Assistant.NextMessageId | src/components/StyleAssistant.tsx:340-343 | the id handed out is larger than any before, and the counter equals it |
| Assistant.Append | src/components/StyleAssistant.tsx:340-343 | appending under the next id keeps ids ordered and below the counter |
| Assistant.ResetForLanguage | src/components/StyleAssistant.tsx:345-351 | the welcome effect leaves a single welcome in the new language under a fresh id, highlighted, with input and question cleared |
| Assistant.ChangeLanguage | src/components/StyleAssistant.tsx:338-351 | the transcript restarts exactly when switching between English and Arabic; a switch between the Arabic variants keeps it |
| Assistant.Exchange | src/components/StyleAssistant.tsx:373-379 | the visitor's text and the reply are appended under the next two ids, and the reply is highlighted |
| Assistant.SelectFaq | src/components/StyleAssistant.tsx:366-381 | the question and its answer in the current language are appended; the question is marked active |
| Assistant.SubmitChat | src/components/StyleAssistant.tsx:383-396 | a submit keeps message ids ordered |
| Assistant.SubmitChatEffect | src/components/StyleAssistant.tsx:383-396 | blank input changes nothing; otherwise exactly the trimmed text and the note are appended, the transcript before is kept and the input cleared |
| Assistant.SubmitIsExchange | src/components/StyleAssistant.tsx:383-396 | a non-blank submit is an exchange of the trimmed text and the note, then a cleared input |
| Assistant.ExchangeThenClear | src/components/StyleAssistant.tsx:386-395 | message by message, what an exchange followed by clearing appends |
| Assistant.ExpireHighlight | src/components/StyleAssistant.tsx:360-364 | the highlight timer clears only the highlighted id |
| Assistant.Step | src/components/StyleAssistant.tsx:345-396 | every action keeps ids ordered and never lowers the counter |
| Assistant.Run | src/components/StyleAssistant.tsx:345-396 | from mounting on, ids on screen stay ordered |
| Assistant.MessageIdsDistinct | src/components/StyleAssistant.tsx:340-396 | no two messages on screen share an id |
| Assistant.FaqIdsDistinct | src/components/StyleAssistant.tsx:28-326 | the 27 canned questions have distinct ids |
| Language.Dir | src/contexts/LanguageContext.tsx:368 | the direction is `rtl` exactly for the two Arabic variants |
| Language.Translate | src/contexts/LanguageContext.tsx:363-366 | `t(key)` is the entry's text when it exists and is not empty, otherwise the key itself |
| Language.UnknownKeyShowsItself | src/contexts/LanguageContext.tsx:363-366 | a key missing from the tables, and not inherited from `Object.prototype`, shows as itself in every language |
| Language.SettingsIsUntranslated | src/contexts/LanguageContext.tsx:13-350 | `settings` is in no table, so it shows as `settings` |
| Language.SetLanguage | src/contexts/LanguageContext.tsx:357-361 | `setLanguage` stores the language, writes `en` or `ar`, and writes the direction |
| Language.RenderAsWritten | src/contexts/LanguageContext.tsx:371-374 | the render as written sets `lang` to the language's own code, `eg` included |
| Language.EgyptianLangOverwritten | src/contexts/LanguageContext.tsx:357-374 | after choosing Egyptian, `setLanguage` writes `ar` and the render then overwrites it with `eg` |
| Language.LangAttribute | src/contexts/LanguageContext.tsx:359 | the intended attribute is `en` for English and `ar` for both Arabic variants |
| Language.Render | src/contexts/LanguageContext.tsx:371-374 | the corrected render keeps the language and writes only `en`/`ar` and `ltr`/`rtl` |
| Language.RenderKeepsSetLanguage | src/contexts/LanguageContext.tsx:357-374 | with the corrected render, what `setLanguage` writes survives; rendering twice equals rendering once |
| Language.InitialDocument | src/contexts/LanguageContext.tsx:355 | the site opens in Arabic, right to left |
| Gallery.JsRem | src/pages/Gallery.tsx:55-56 | JavaScript `%` agrees with the mathematical remainder for non-negative dividends and is never positive for negative ones |
| Gallery.SteppingStaysInRange | src/pages/Gallery.tsx:55-56 | next and previous keep an open image in range and a closed lightbox closed |
| Gallery.NextImage | src/pages/Gallery.tsx:55 | the next image, wrapping to the first; stated by `Gallery.SteppingStaysInRange`, `Gallery.NextPrevInverse` and `Gallery.ForwardCounts` |
| Gallery.PrevImage | src/pages/Gallery.tsx:56 | the previous image, wrapping to the last; stated by `Gallery.SteppingStaysInRange` and `Gallery.NextPrevInverse` |
| Gallery.NextPrevInverse | src/pages/Gallery.tsx:55-56 | next then previous, or previous then next, returns to the same image |
| Gallery.ForwardCounts | src/pages/Gallery.tsx:55 | stepping forward counts up to the last image, then continues from the first |
| Gallery.FullTurn | src/pages/Gallery.tsx:55 | stepping forward once per image comes back to the start |
| Gallery.DragEnd | src/pages/Gallery.tsx:59-63 | a swipe beyond 50 left goes forward, beyond 50 right goes back, otherwise nothing |
| Gallery.KeyPress | src/pages/Gallery.tsx:66-72 | only while open: the arrows step and Escape closes; other keys do nothing |
| Gallery.BodyOverflow | src/pages/Gallery.tsx:74-75 | scrolling is locked exactly while an image is open |
| Gallery.Counter | src/pages/Gallery.tsx:185 | the counter shows the one-based position out of the number of images |
| Gallery.ImageSrc | src/pages/Gallery.tsx:6-44 | every image source lies under `/assets/images/` |
| Gallery.ImageCount | src/pages/Gallery.tsx:7-44 | the gallery has 36 images |
| ProductDetail.FindProduct | src/pages/ProductDetail.tsx:20 | finds the first product with the id, and none exactly when the id is missing or unknown |
| ProductDetail.Open | src/pages/ProductDetail.tsx:15-24 | an unknown id renders nothing; a known one opens that product in the initial state |
| ProductDetail.SelectSize | src/pages/ProductDetail.tsx:133-136 | picking a size clears the error; quantity and notice are unchanged |
| ProductDetail.Decrement | src/pages/ProductDetail.tsx:148 | minus lowers the quantity by one but never below one, nothing else changes |
| ProductDetail.Increment | src/pages/ProductDetail.tsx:150 | plus raises the quantity by one, nothing else changes |
| ProductDetail.AddToCart | src/pages/ProductDetail.tsx:27-42 | without a size nothing is added and the error shows; with one, `quantity` calls in that size with no colour are made, the error is cleared and the notice shown |
| ProductDetail.AddToCartLoop | src/pages/ProductDetail.tsx:34-36 | the loop makes exactly the calls the specification describes |
| ProductDetail.DismissNotice | src/pages/ProductDetail.tsx:41 | closing the notice changes nothing else |
| ProductDetail.Step | src/pages/ProductDetail.tsx:27-150 | no action takes a positive quantity to zero or below |
| ProductDetail.QuantityStaysPositive | src/pages/ProductDetail.tsx:16 | whatever the visitor does, the quantity stays at least one |
| ProductDetail.CallsCarryPickedSize | src/pages/ProductDetail.tsx:27-36 | every cart call carries this product, a picked size and no colour |
| ProductDetail.AddAfterRun | src/pages/ProductDetail.tsx:27-36 | add after picking a size always adds at least one unit; add before adds none |
| Cart.Shipping | src/pages/Cart.tsx:13 | shipping is free exactly above 1000, otherwise 50 |
| Cart.HintAsWritten | src/pages/Cart.tsx:121-123 | the hint as written shows while shipping is charged, naming `1000 - total`, which is 0 at a total of exactly 1000 |
| Cart.HintFallsShort | src/pages/Cart.tsx:121-123 | adding the amount the hint names still leaves shipping charged |
| Cart.FreeShippingHint | src/pages/Cart.tsx:121-123 | the corrected hint shows while shipping is charged and names a positive amount |
| Cart.HintReachesFreeShipping | src/pages/Cart.tsx:13 | adding the corrected amount makes shipping free, and any smaller amount does not |
| Cart.Page | src/pages/Cart.tsx:12-125 | an empty bag shows the empty view; otherwise the lines, the subtotal, the shipping, the total, and while shipping is charged the hint as written, naming the gap to 1000 |
| Cart.PageHintFallsShort | src/pages/Cart.tsx:121-123 | a shopper who adds what the page's hint names still pays the fee on the page that follows |
| Cart.TotalBounds | src/pages/Cart.tsx:109 | the total is the subtotal plus 0 or 50 |
| Cart.QuantityCalls | src/pages/Cart.tsx:67-71 | the buttons ask the store for one less and one more of the same line |
| Cart.RemoveCall | src/pages/Cart.tsx:75 | the bin asks the store to remove that line |
| Cart.LineTitle | src/pages/Cart.tsx:56 | the Arabic name in Arabic, otherwise the English name or the Arabic one |
| Theme.InitialTheme | src/contexts/ThemeContext.tsx:9-12 | the stored theme, or dark when none or empty is stored |
| Theme.Toggle | src/contexts/ThemeContext.tsx:30 | toggling gives a proper theme different from the current one: dark exactly from light |
| Theme.ToggleTwice | src/contexts/ThemeContext.tsx:30 | two toggles restore a proper theme, and turn any other value into dark |
| Theme.ThemeColor | src/contexts/ThemeContext.tsx:27 | the bar colour is `#0f0b08` exactly for dark, `#faf5ee` otherwise |
| Theme.Apply | src/contexts/ThemeContext.tsx:14-28 | every sink receives the theme, it is stored, and the meta colour follows it |
| Theme.ReloadKeepsTheme | src/contexts/ThemeContext.tsx:9-18 | after a theme is applied, a reload starts from it |
| Theme.AfterToggles | src/contexts/ThemeContext.tsx:9-30 | after any positive number of toggles the theme is a proper one |
| Theme.EvenTogglesRestore | src/contexts/ThemeContext.tsx:30 | from a stored proper theme, an even number of toggles returns to it |

## Left out

- I/O is not modelled: the file system writes, the HTTP server and its middleware, `fetch`, SMTP, DOM side effects such as scrolling, `scrollIntoView`, `vibrate` and object URLs, and timers. Reads are parameters. Writes and outbound requests are returned as values.
- The clock, `Math.random` and `new Date().toISOString()` are parameters.
- `handleUploadChange` on the order form is not modelled. It uploads to Cloudinary and builds a local preview, which is a network call and a browser object.
- The EmailJS send itself is not modelled. Its success or failure is a parameter of the submit model.
- The cart store (`CartContext`) is not part of this model. The bag page takes the subtotal as a parameter and records the calls it makes to the store.
- `Contact.ValidateField`: the URL pattern of the website and social fields is a parameter `isUrl`, not a regular-expression model. The e-mail, phone, handle and quantity patterns are modelled in full.
- `Query.DecodeEncode`, `Query.ParseEncodedPair` and `Products.ContactQueryParses` are proved for ASCII text only. The decoder turns each `%XY` byte into one character and does not reassemble multi-byte UTF-8.
- `Strings.ToLower` folds ASCII letters only. Unicode case mapping is not modelled.
- Prices and totals are whole numbers. JavaScript numbers are not modelled as floating point.
- The Style Assistant's canned answer texts and the page copy are not modelled. The FAQ list keeps the 27 ids, and each item's texts are a parameter.
- The English translation table is kept in the key order of the Arabic table, which `t` cannot observe. The Egyptian table is identical to the Arabic one in the source, and the model reuses it.
- The framer-motion animations, scroll-progress bar, IntersectionObserver effects and the layout markup are presentation only and are not modelled.
- `Notify.NumberOf` reads only blank and decimal text as numbers. Other forms that `Number` accepts (signs, hexadecimal, exponents) read as not-a-number.
- `Uploads.OrderAttachment`: built on the corrected resolver, so its result always lies in the uploads directory. The source's own `getOrderAttachment` is `Uploads.OrderAttachmentAsWritten`, which for a `..` basename attaches the parent directory (see Findings).
- `Notify.MailFor` and `Notify.MailContents` attach through the corrected `Uploads.OrderAttachment`. For a `fileUrl` whose basename is `.` or `..` the source attaches the uploads directory or its parent instead.
- `Orders.ViewOrder`: the store is keyed by the order id itself. The source reads `path.join(ordersDir, id + ".json")`, and Express decodes `%2F` in the id. So an id holding `/` or `..` segments, such as `x%2F..%2F<id>`, finds another file there, possibly outside the orders directory, while the model answers 404. Path normalisation of the id is not modelled.
- `Language.Translate`: the source looks the key up in a JavaScript object, so a key naming an `Object.prototype` member (`constructor`, `toString`, …) returns the inherited function, not the key. The model returns the key. No call site passes such a key.
- `Language.UnknownKeyShowsItself` requires the key not to be one of those inherited names, for the same reason.
- `Uploads.SanitizeName` works on Unicode scalar values. JavaScript's `replace` works on UTF-16 code units, so a character outside the Basic Multilingual Plane (an emoji, say) becomes `__` in the source and `_` in the model.
- The AI providers' HTTP exchanges are parameters. The request bodies and the parsing of the JSON replies are not modelled; only their outcome (reply text, error response, or failure) is.

## Findings

| source | as written | input that shows it | evidently intended | confidence | as-written member | corrected member |
|---|---|---|---|---|---|---|
| server/index.js:167-179 | `resolveUploadPath` joins the basename of any `fileUrl` onto the uploads directory, and `path.join` normalises `..` | an order whose `fileUrl` is the text `..` (or `/uploads/..`, which `new URL` rejects) resolves to the parent of the uploads directory, which exists, so `getOrderAttachment` hands that directory to the mailer as the attachment | only a plain file name inside the uploads directory is ever resolved | medium, not executed | Uploads.DotDotAttachesParent | Uploads.OrderAttachment |
| src/contexts/LanguageContext.tsx:357-374 | `setLanguage` writes `ar` for Egyptian Arabic, but every render then writes the language code itself | choosing `eg` leaves `<html lang="eg">`, which is not a language tag | the document keeps `lang="ar"` for both Arabic variants | medium, not executed | Language.EgyptianLangOverwritten | Language.RenderKeepsSetLanguage |
| src/pages/Cart.tsx:13, 121-123 | shipping is free only above 1000, but the hint names `1000 - total` | a subtotal of 900 shows "Add 100 EGP"; at 1000 shipping is still 50 | the hint names the least amount that makes shipping free, `1001 - total` | high, not executed | Cart.HintFallsShort | Cart.HintReachesFreeShipping |
