# wechat-bot message handling, in Dafny

The bot is a WeChat official-account webhook. It gets one parsed message per
request and answers with at most one reply. It works from two lookup tables:

- The message type selects a handler. A `text` message goes to the text handler,
  an `image` message to OCR through a cloud provider, and an `event` to the event handler.
  Any other type gets the text "不支持处理的消息类型: <type>".
- For a text message, the exact content selects a command. The only command is
  "动物". It fetches a random animal fact and downloads the animal's image to a temp
  file. It uploads that file to the media library and answers with the uploaded
  image. Any other content gets the default help text.

This model covers that dispatch and the construction of every reply. The outside
world is a `Services` value: the OCR answer for a URL, the animal fetch, the
download of a URL, the temp-file creation and write, and the upload. Each one is
an outcome that the model takes as input.

Modules:

- `Messages`: messages, replies, collaborator outcomes, fixed texts.
- `Ocr`: the image reply (`OcrReply`) and the image handler's accumulation loop
  (`ReceiveImage`). It also has an inverse, `DecodeOcrReply`, which shows that the
  reply keeps all of the provider's answer when no detected line contains a newline.
- `Animal`: what the command answers and which outbound calls it makes, in order,
  as a `Call` log. Also which temp files it leaves behind.
- `Dispatch`: the two tables and the handlers as total functions.
- `Bot`: class `Runtime`. Its state is the temp files on disk, the temp-file
  counter and the call log. Its methods do the source's steps one at a time, and
  each one is proved equal to the functions above.

The message types `"text"`, `"image"` and `"event"` and the event `"subscribe"` are
the wire values of the WeChat SDK's constants. config/config.go is not part of
this model.

The deferred `os.Remove` is registered only after the write succeeds
(main.go:170-174), so a failed write leaves the temp file on disk.
`Animal.AnimalLeftover`, `Bot.Runtime.DownloadImgUploadMedia` and
`Animal.AnimalTempCleanup` state this path.

A Go `%w`-wrapped error reads as its prefix followed by the wrapped error's text.
In the model each error is that text.

## Model

| member | source | states |
|---|---|---|
| Ocr.Lines | main.go:210-211 | the formatted text is at least as long as the number of detections (each adds at least its newline) |
| Ocr.LinesNewlineCount | main.go:209-212 | when no detection contains a newline, the formatted text holds exactly one newline per detection |
| Ocr.OcrReply | main.go:201-221 | the reply to an image is always a text reply; it opens with the banner exactly when the provider detected text, and with zero detections it is exactly the banner |
| Ocr.ReceiveImage | main.go:186-222 | the handler's loop builds the banner followed by each detected line plus "\n" in order; on an API error or a request error the text is the prefixed error message; this is the OcrReply of the provider's answer for the message's picture URL |
| Ocr.LinesSnoc | main.go:210-211 | one more detection appends that line and a newline to the accumulated text |
| Ocr.LinesAppend | main.go:209-212 | the text for two batches of detections is the two texts in sequence, so order is preserved and nothing is merged |
| Ocr.SplitLinesOfLines | main.go:209-212 | splitting the formatted text on newlines gives back the detections when none contains a newline |
| Ocr.OcrReplyRoundTrip | main.go:202-219 | the reply determines the provider's outcome: API error and its message, request error and its message, or the detected lines in order when no detected line contains a newline |
| Animal.DownloadUploadResult | main.go:157-183 | download-and-upload returns a media id exactly when the download, temp-file creation, write and upload all succeed, and then it is the uploaded id; a failure gives the failing step's prefix and that step's error: "下载图片失败: ", "创建临时文件失败: ", "写入临时文件失败: " or "上传到媒体库失败: " |
| Animal.DownloadUploadCalls | main.go:160-177 | the calls of download-and-upload follow the pipeline order from the download with no step skipped; the temp file is removed exactly when download, creation and write succeeded |
| Animal.AnimalReply | main.go:122-155 | the command always gives a reply; it is an image exactly when a link was fetched and download-and-upload succeeded, and then it shows the uploaded id; a fetch error gives "请求动物失败: " + error, an empty link gives "解析动物图片链接失败", and a download-and-upload failure gives that error's own text |
| Animal.AnimalCalls | main.go:122-145 | the command's call log starts with the fetch and has at most the six pipeline calls |
| Animal.AnimalLeftover | main.go:166-174 | the command leaves at most its own temp file behind |
| Animal.AnimalChainStopsAtFailure | main.go:125-182 | calls are made in pipeline order with none skipped; after a failed call only the removal of an already written temp file follows; the reply is an image exactly when no call failed, and then all six calls were made |
| Animal.AnimalCallsUseStepOutputs | main.go:145-177 | the download uses the fetched non-empty link, the write uses the downloaded bytes, and the upload and removal use the temp file that was created |
| Animal.AnimalTempCleanup | main.go:166-174 | the removal, when made, is the last call; the temp file is left behind exactly when it was created and not removed, which happens when the write fails |
| Dispatch.ReceiveEvent | main.go:83-91 | a reply exists exactly for the subscribe event, and it is the default text; every other event gets no reply |
| Dispatch.AnimalReplyOpening | main.go:126-180 | every text reply of the animal command opens with the first character of its fixed failure message or of one of its error prefixes |
| Dispatch.ReceiveText | main.go:105-120 | the content "动物" runs the animal command; the reply is the default text exactly when the content is anything else, including empty or whitespace |
| Dispatch.HandleMessage | main.go:77-103 | a type outside the table gets "不支持处理的消息类型: " + the type name; the only message without a reply is an event other than subscribe |
| Dispatch.HandleMessageRoutes | main.go:77-81 | text, image and event messages each go to exactly their own handler |
| Dispatch.UnsupportedReplyIsDistinct | main.go:94-102 | a reply opens with the "unsupported type" prefix exactly when the message type is outside the table |
| Bot.Runtime.DownloadImgUploadMedia | main.go:157-183 | step by step: returns DownloadUploadResult and logs DownloadUploadCalls; a created temp file gets a fresh number, and it stays on disk only when the write failed |
| Bot.Runtime.ReceiveTextAnimal | main.go:122-155 | step by step: returns AnimalReply, logs AnimalCalls, and adds AnimalLeftover to the temp files |
| Bot.Runtime.HandleMessage | main.go:94-120 | returns the Dispatch.HandleMessage reply; only the "动物" command changes temp files or the call log; every other message leaves the state unchanged, so handling it twice gives the same reply |

## Left out

- The HTTP server, the `/debug` route, and the SDK's signature check, XML parsing, `Serve` and `Send` (main.go:31-73). They are platform plumbing in a library that is not part of this model.
- Configuration loading (config/config.go) and building the OCR client with its credentials, endpoint and region. These are process setup only.
- The HTTP GETs, their 3-second timeouts, reading response bodies, and JSON decoding. Each is an outcome in `Services`. The source ignores the read and decode errors. Invalid JSON leaves `imageLink` empty, and a field of the wrong type is skipped; the model accepts any decoded fact.
- Closing response bodies and the temp file handle. The source never closes the temp file; the model tracks only whether the file exists.
- Errors from `os.Remove`, which the source ignores. The model treats the removal as always succeeding.
- A nil `DetectedText` or nil response, which would make the Go code panic. The model always has a text for every detection.
- Logging with `fmt.Println`, and concurrency between requests. Requests share only the SDK's access-token cache (main.go:34-44), which is left out with the SDK, and otherwise only their own uniquely named temp files.
- Ocr.OcrReplyRoundTrip: a detected line that itself contains a newline cannot be told apart from two detections in the reply (`Ocr.EmbeddedNewlineReadsAsTwoLines`), so the round trip is stated only for detections without newlines.
- The exact text of a Tencent Cloud SDK error. `ApiError(msg)` carries whatever that error prints.
