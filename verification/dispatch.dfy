/** The two dispatch tables: the message type selects a handler (text, image or
    event), and the exact content of a text message selects a command. Anything
    not in a table gets a fixed text reply. */
module Dispatch {
  import opened Messages
  import Ocr
  import Animal

  datatype Handler = OnText | OnImage | OnEvent
  datatype TextCommand = AnimalCommand

  const MsgFuncMap: map<string, Handler> :=
    map[MsgTypeText := OnText, MsgTypeImage := OnImage, MsgTypeEvent := OnEvent]

  const TextFuncMap: map<string, TextCommand> := map[AnimalKeyword := AnimalCommand]

  /** Events: only a subscription is answered, with the default text; every other
      event gets no reply, which is not an error. */
  function ReceiveEvent(event: string): (r: Option<Reply>)
    ensures r.Some? <==> event == EventSubscribe
    ensures r.Some? ==> r.value == TextReply(DefaultMsg)
  {
    if event == EventSubscribe then Some(TextReply(DefaultMsg)) else None
  }

  function RunCommand(cmd: TextCommand, svc: Services): Reply
  {
    match cmd
    case AnimalCommand => Animal.AnimalReply(svc)
  }

  /** The first character of every text the "动物" command can answer with is the
      first character of one of its fixed messages or error prefixes. */
  lemma AnimalReplyOpening(svc: Services)
    ensures var r := Animal.AnimalReply(svc);
      r.TextReply? ==> |r.content| > 0 && r.content[0] in {'请', '解', '下', '创', '写', '上'}
  {
  }

  /** Text messages: the content is looked up as is (no trimming), so the reply is
      the default text exactly when the content is not the keyword; the keyword
      always runs the animal command, whose replies never read as the default. */
  function ReceiveText(content: string, svc: Services): (r: Reply)
    ensures content == AnimalKeyword ==> r == Animal.AnimalReply(svc)
    ensures r == TextReply(DefaultMsg) <==> content != AnimalKeyword
  {
    if content in TextFuncMap then
      AnimalReplyOpening(svc);
      RunCommand(TextFuncMap[content], svc)
    else
      TextReply(DefaultMsg)
  }

  function Invoke(h: Handler, msg: Message, svc: Services): Option<Reply>
  {
    match h
    case OnText => Some(ReceiveText(msg.content, svc))
    case OnImage => Some(Ocr.OcrReply(svc.ocr(msg.picUrl)))
    case OnEvent => ReceiveEvent(msg.event)
  }

  /** The message handler given to the platform SDK. A type outside the table gets a
      text naming it literally; the only message left without a reply is an event
      other than a subscription. */
  function HandleMessage(msg: Message, svc: Services): (r: Option<Reply>)
    ensures msg.msgType !in MsgFuncMap ==> r == Some(TextReply(UnsupportedPrefix + msg.msgType))
    ensures r.None? <==> msg.msgType == MsgTypeEvent && msg.event != EventSubscribe
  {
    if msg.msgType in MsgFuncMap then Invoke(MsgFuncMap[msg.msgType], msg, svc)
    else Some(TextReply(UnsupportedPrefix + msg.msgType))
  }

  /** Text, image and event messages go to exactly their own handler. */
  lemma HandleMessageRoutes(msg: Message, svc: Services)
    ensures msg.msgType == MsgTypeText ==> HandleMessage(msg, svc) == Some(ReceiveText(msg.content, svc))
    ensures msg.msgType == MsgTypeImage ==> HandleMessage(msg, svc) == Some(Ocr.OcrReply(svc.ocr(msg.picUrl)))
    ensures msg.msgType == MsgTypeEvent ==> HandleMessage(msg, svc) == ReceiveEvent(msg.event)
  {
  }

  /** The "unsupported type" text cannot be mistaken for any other reply: a reply
      opens with its prefix exactly when the message type is outside the table. */
  lemma UnsupportedReplyIsDistinct(msg: Message, svc: Services)
    ensures var r := HandleMessage(msg, svc);
      (r.Some? && r.value.TextReply? && UnsupportedPrefix <= r.value.content) <==>
      msg.msgType !in MsgFuncMap
  {
    var r := HandleMessage(msg, svc);
    if msg.msgType == MsgTypeText && msg.content == AnimalKeyword {
      AnimalReplyOpening(svc);
    } else if msg.msgType == MsgTypeImage {
      var o := svc.ocr(msg.picUrl);
      if o.Detected? {
        assert r.value.content[0] == OcrBanner[0];
      } else if o.ApiError? {
        assert r.value.content[0] == ApiErrorPrefix[0];
      } else {
        assert r.value.content[0] == RequestErrorPrefix[0];
      }
    } else if msg.msgType in MsgFuncMap && r.Some? {
      assert r.value == TextReply(DefaultMsg);
      assert DefaultMsg[0] != UnsupportedPrefix[0];
    }
  }
}
