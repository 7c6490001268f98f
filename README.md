# tg2dynalist, modelled in Dafny

tg2dynalist is a small Telegram bot that relays the text messages of one
configured Telegram user into that user's Dynalist inbox. This project models
its decision and formatting logic and proves what it promises:

- **Relay** (main.go): the startup check of `BOT_TOKEN`, `DYNALIST_TOKEN` and
  `TG_USER_ID`; the per-update decision (no message, stranger, media, empty
  text, text); the main file's own `addToDynalist`; and the
  `for update := range updates` loop, as a method that folds a sequence of
  updates into an ordered log of posts and replies.
- **Dynalist** (dynalist.go): the request body `AddToDynalist` builds, which
  JSON keys its encoding carries under the `omitempty` tags, and how the one
  reply is turned into success or an error text. The `_code` check is defined
  once and used by both the main file's and dynalist.go's version of the call.
- **Cloudflare** (cloudflare.go): the settings check of the R2 client, the
  dashboard URL, the object key and the URL `UploadFile` returns, the
  content-type to extension table and Go's `filepath.Ext`.
- **Decimal**: Go's base-10 `strconv.ParseInt(s, 10, 64)` and `%d`, which the
  relay uses to read the user ID and to name uploaded objects.
- **Wrappers**: `Option` and `Result`.

Everything that talks to the network, the clock or a foreign library is an
input: the outcome of the Dynalist exchange (send failure, undecodable body,
or the decoded reply), the outcome of the R2 upload, the timestamp and the
sniffed content type. Replies the bot sends and requests it posts are entries
of an effect log.

The update loop rejects every media message, photos included, with one
fixed notice; submits only the message text, with no note; skips messages
with empty text without replying; and confirms a submission with "Added to
Dynalist inbox".

## Model

| member | source | states |
|---|---|---|
| `Decimal.ParseInt64` | main.go:50 | succeeds exactly on an optionally signed, non-empty decimal digit string whose value lies in the int64 range, and then returns that value (leading zeros and '+' allowed); an in-shape string out of range is refused with ErrRange |
| `Decimal.ParseFormatRoundTrip` | main.go:50 | parsing what `%d` prints gives back the same int64 |
| `Decimal.FormatIntInjective` | cloudflare.go:74 | distinct int64 values print differently |
| `Decimal.DigitsValueOfFormat` | cloudflare.go:74 | the decimal digits printed for n have value n |
| `Dynalist.NewRequest` | dynalist.go:34-40 | the body holds token, content and note exactly as passed; index, checked and checkbox keep Go's zero values |
| `Dynalist.MarshalEmitsExactly` | dynalist.go:15-22 | the encoding contains every field that is not an empty omitempty field, and nothing else |
| `Dynalist.LookupMarshal` | dynalist.go:15-22 | with distinct keys, a key decodes to its field's value exactly when that field is emitted |
| `Dynalist.UnmarshalMarshalRequest` | dynalist.go:15-22 | decoding the encoded body yields the request that was built: omitting empty fields loses nothing |
| `Dynalist.NewRequestKeys` | dynalist.go:34-45 | the posted body has keys token and content, plus note exactly when the note is non-empty; never index, checked or checkbox |
| `Dynalist.CheckResponse` | dynalist.go:70-77 | success exactly when `_code` is "Ok"; otherwise "dynalist API error: " followed by `_msg`, or by "code " and the code when `_msg` is empty |
| `Dynalist.AddToDynalist` | dynalist.go:33-78 | one request, the struct literal of token, content and note, is posted; the call succeeds exactly when the reply decoded and its code is "Ok"; a send failure gives "failed to send request: " and the reason, a decoder error "failed to decode response: " and the reason, a decoded rejection the `_code` check's text |
| `Dynalist.ErrorTextIdentifiesKind` | dynalist.go:57-74 | a send failure, an undecodable reply and an API rejection are all errors, and the text's prefix tells which of the three it was |
| `Cloudflare.NewR2Client` | cloudflare.go:27-62 | fails with the fixed message when any of the four settings is empty; on success keeps account ID and bucket name unchanged |
| `Cloudflare.GetDashboardURL` | cloudflare.go:65-68 | the URL is the bucket's dashboard object prefix followed by the object path |
| `Cloudflare.DashboardURLRoundTrip` | cloudflare.go:65-68 | the object path is recovered from its dashboard URL |
| `Cloudflare.DashboardURLInjective` | cloudflare.go:65-68 | different objects of one client have different dashboard URLs |
| `Cloudflare.ObjectKey` | cloudflare.go:73-74 | the key is longer than the extension and ends with it |
| `Cloudflare.ObjectKeyRoundTrip` | cloudflare.go:73-74 | removing the extension from the key leaves exactly the `%d` rendering of the timestamp, which parses back to it |
| `Cloudflare.ObjectKeysDistinct` | cloudflare.go:73-74 | two uploads at different instants with one extension never share a key |
| `Cloudflare.UploadFile` | cloudflare.go:71-93 | the object is put into the client's bucket under the timestamp key with the given body and content type; on failure the URL is empty and an error is returned; on success the URL is the dashboard URL of the key plus "/details" |
| `Cloudflare.UploadURLNamesObject` | cloudflare.go:91-92 | the returned URL leads back to the stored key, and the key to the timestamp |
| `Cloudflare.GetFileExtension` | cloudflare.go:128-141 | the four image types map to ".jpg", ".png", ".gif", ".webp" and each extension only from its type; everything else maps to ".bin"; the result always starts with "." |
| `Cloudflare.GetFileExtensionIsExact` | cloudflare.go:129-139 | examples of the exact match: "image/jpeg; charset=binary", "IMAGE/PNG" and the empty type all map to ".bin" |
| `Cloudflare.GetFileExtensionFromFilename` | cloudflare.go:144-146 | the result is the suffix of the name starting at a '.' with no further '.' or '/' after it, or empty when every '.' is followed by a later '/' |
| `Relay.LoadConfig` | main.go:39-53 | startup succeeds exactly when the three settings are non-empty and TG_USER_ID is a base-10 int64; the tokens are kept and the ID is the parsed value |
| `Relay.LoadConfigAcceptsDecimalId` | main.go:49-53 | every int64 written in decimal is accepted as the user ID and read back exactly |
| `Relay.Classify` | main.go:71-99 | the loop's checks in order: no message, stranger, any of the six media kinds, empty text, otherwise forward the text |
| `Relay.AddToDynalist` | main.go:121-164 | the posted body is token and content with an empty note; success exactly when the reply decoded with code "Ok"; otherwise the send, decode or `_code` error text, as in dynalist.go |
| `Relay.AddToDynalistSnapshotsAgree` | main.go:121-164 | main.go's call behaves as dynalist.go's with an empty note |
| `Relay.Run` | main.go:71-117 | the loop's log is the effects of each update in arrival order |
| `Relay.IgnoredUpdatesHaveNoEffect` | main.go:72-81 | an update with no message, or from anyone but the configured user, causes no post and no reply |
| `Relay.MediaGetsOnlyNotice` | main.go:83-92 | a media message from the user gets only the fixed text-only notice, whatever its text |
| `Relay.EmptyTextSkipped` | main.go:94-99 | a media-free message with empty text is skipped without a reply |
| `Relay.TextIsForwardedOnce` | main.go:101-116 | a text message is posted once with its text and the configured token, then answered once: "Added to Dynalist inbox" exactly on success, otherwise "Error adding to Dynalist: " and the error |
| `Relay.StepWellFormed` | main.go:71-117 | one update causes at most one post and one reply, the reply last and addressed to the message's chat as a reply to it, and only for the configured user |
| `Relay.RepliesFollowArrivalOrder` | main.go:71-117 | the replies of a whole stream correspond one to one, in order, to the user's answered messages, each to its chat and message |
| `Relay.OnePostPerForwardedMessage` | main.go:101-111 | over a whole stream the number of posts equals the number of forwarded messages: no retry |

## Left out

- Telegram transport (`NewBotAPI`, `GetUpdatesChan`, `bot.Send`): updates are a given sequence and sends are log entries; failures of `bot.Send` are ignored by the source and not modelled.
- HTTP in `addToDynalist`/`AddToDynalist` (building, sending, reading the body): the result is the `Exchange` input. The marshal and request-construction error paths cannot be taken (a struct of strings, ints and bools; a constant URL) and are not modelled.
- `DownloadFileFromTelegram` (cloudflare.go:96-125): network I/O only.
- The S3 client, the endpoint resolver and `PutObject` (cloudflare.go:40-55, 80-85): the configuration error and the upload error are inputs.
- `time.Now().UnixNano()` and `http.DetectContentType`: the timestamp and the content type are parameters.
- JSON string escaping and byte-level output: the model covers which keys are present, in struct order, and their values.
- `os.Getenv` and all `log` output, including the exact text of the fatal startup messages: settings are given strings and startup errors are a datatype.
- Messages without a sender (`From` nil) would make the Go loop panic; the model's messages always have a sender ID.
- `Cloudflare.GetFileExtensionFromFilename` treats only '/' as a path separator, as Go does on Unix.
