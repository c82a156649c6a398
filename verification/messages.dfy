/** Values exchanged with the messaging platform and with the bot's collaborators:
    the parsed inbound message, the reply, the fixed reply texts, and the outcomes
    of the outbound calls (OCR, animal-fact fetch, image download, temp file,
    media upload), which the model receives as inputs instead of performing I/O. */
module Messages {

  datatype Option<+T> = None | Some(value: T)

  /** The outcome of a call that yields a value or a Go error (its Error() text). */
  datatype Result<+T> = Ok(value: T) | Err(msg: string)

  /** The outcome of a call that yields only an error or nothing. */
  datatype Status = Done | Failed(msg: string)

  type Byte = bv8

  /** The inbound message after the platform SDK parsed it. Message type and event
      are the SDK's wire strings ("text", "image", "event", "subscribe", ...). */
  datatype Message = Message(msgType: string, content: string, picUrl: string, event: string)

  /** The single outbound reply: a text, or an image held in the platform's media store. */
  datatype Reply = TextReply(content: string) | ImageReply(mediaId: string)

  /** What the OCR provider answered: the detected lines, an error reported by the
      provider's API, or any other (transport) error. */
  datatype OcrOutcome = Detected(lines: seq<string>) | ApiError(msg: string) | RequestError(msg: string)

  /** The JSON body of the animal-fact service, after lenient decoding: a missing
      field or invalid JSON leaves imageLink empty; a field of the wrong type is skipped. */
  datatype AnimalFact = AnimalFact(name: string, imageLink: string)

  /** Everything the outside world answers while one message is handled. */
  datatype Services = Services(
    ocr: string -> OcrOutcome,             // OCR of the image at a URL
    fetchAnimal: Result<AnimalFact>,       // GET of a random animal fact
    download: string -> Result<seq<Byte>>, // GET of the image at a URL
    createTemp: Status,                    // creating the temp file "animal-*"
    writeTemp: Status,                     // writing the downloaded bytes into it
    upload: Result<string>)                // adding it to the media library: the media id

  const MsgTypeText: string := "text"
  const MsgTypeImage: string := "image"
  const MsgTypeEvent: string := "event"
  const EventSubscribe: string := "subscribe"

  /** The one text command. */
  const AnimalKeyword: string := "动物"

  const DefaultMsg: string := "这是默认的回复: \n\n- 发送图片可以识别图片中的文本\n"
  const UnsupportedPrefix: string := "不支持处理的消息类型: "
  const OcrBanner: string := "检测到以下文本:\n\n"
  const ApiErrorPrefix: string := "an API error has returned: "
  const RequestErrorPrefix: string := "request api error: "
  const FetchFailedPrefix: string := "请求动物失败: "
  const LinkFailedMsg: string := "解析动物图片链接失败"
  const DownloadFailedPrefix: string := "下载图片失败: "
  const CreateFailedPrefix: string := "创建临时文件失败: "
  const WriteFailedPrefix: string := "写入临时文件失败: "
  const UploadFailedPrefix: string := "上传到媒体库失败: "
}
