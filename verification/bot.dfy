/** The bot as it runs: the state its handlers change is the set of temp files on
    disk and the outbound calls made so far. Each method does the steps of the
    source one after the other and is proved to answer what the functions of
    Dispatch, Ocr and Animal say, with exactly the calls and temp files they say. */
module Bot {
  import opened Messages
  import Animal
  import Ocr
  import Dispatch

  class Runtime {
    /** The temp files present on disk. */
    var tempFiles: set<nat>
    /** The number the next created temp file gets; temp file names are unique. */
    var nextTemp: nat
    /** The outbound calls of the animal command made so far, in order. */
    var calls: seq<Animal.Call>

    ghost predicate Valid()
      reads this
    {
      forall f :: f in tempFiles ==> f < nextTemp
    }

    constructor ()
      ensures Valid() && tempFiles == {} && nextTemp == 0 && calls == []
    {
      tempFiles := {};
      nextTemp := 0;
      calls := [];
    }

    /** Downloads the image at url into a fresh temp file and uploads that file. The
        file's removal is registered only after the write succeeded, so a failed
        write leaves the file on disk. */
    method DownloadImgUploadMedia(url: string, svc: Services) returns (res: Result<string>)
      requires Valid()
      modifies this
      ensures Valid()
      ensures res == Animal.DownloadUploadResult(url, svc)
      ensures calls == old(calls) + Animal.DownloadUploadCalls(url, svc, old(nextTemp))
      ensures tempFiles == old(tempFiles) + (if Animal.LeavesTempFile(url, svc) then {old(nextTemp)} else {})
      ensures nextTemp == old(nextTemp) + (if svc.download(url).Ok? && svc.createTemp.Done? then 1 else 0)
    {
      calls := calls + [Animal.Download(url)];
      var bytes: seq<Byte>;
      match svc.download(url) {
        case Err(e) =>
          return Err(DownloadFailedPrefix + e);
        case Ok(b) =>
          bytes := b;
      }
      calls := calls + [Animal.CreateTemp];
      if svc.createTemp.Failed? {
        return Err(CreateFailedPrefix + svc.createTemp.msg);
      }
      var tmp := nextTemp;
      nextTemp := nextTemp + 1;
      tempFiles := tempFiles + {tmp};
      calls := calls + [Animal.WriteTemp(tmp, bytes)];
      if svc.writeTemp.Failed? {
        return Err(WriteFailedPrefix + svc.writeTemp.msg);
      }
      // The removal is registered here and runs after the upload, whatever its outcome.
      calls := calls + [Animal.Upload(tmp)];
      match svc.upload {
        case Err(e) =>
          res := Err(UploadFailedPrefix + e);
        case Ok(mediaId) =>
          res := Ok(mediaId);
      }
      calls := calls + [Animal.RemoveTemp(tmp)];
      tempFiles := tempFiles - {tmp};
    }

    /** The "动物" command: fetch, check the image link, then download and upload. */
    method ReceiveTextAnimal(svc: Services) returns (r: Reply)
      requires Valid()
      modifies this
      ensures Valid()
      ensures r == Animal.AnimalReply(svc)
      ensures calls == old(calls) + Animal.AnimalCalls(svc, old(nextTemp))
      ensures tempFiles == old(tempFiles) + Animal.AnimalLeftover(svc, old(nextTemp))
      ensures nextTemp == old(nextTemp) + (if Animal.TempCreated(svc) then 1 else 0)
    {
      calls := calls + [Animal.FetchAnimal];
      var fact: AnimalFact;
      match svc.fetchAnimal {
        case Err(e) =>
          return TextReply(FetchFailedPrefix + e);
        case Ok(f) =>
          fact := f;
      }
      if fact.imageLink == "" {
        return TextReply(LinkFailedMsg);
      }
      var res := DownloadImgUploadMedia(fact.imageLink, svc);
      match res {
        case Err(e) =>
          r := TextReply(e);
        case Ok(mediaId) =>
          r := ImageReply(mediaId);
      }
    }

    /** The message handler: looks the type up in the handler table, and a text's
        content in the command table. Only the "动物" command touches the state; any
        other message leaves the temp files and the call log as they were. */
    method HandleMessage(msg: Message, svc: Services) returns (r: Option<Reply>)
      requires Valid()
      modifies this
      ensures Valid()
      ensures r == Dispatch.HandleMessage(msg, svc)
      ensures var animal := msg.msgType == MsgTypeText && msg.content == AnimalKeyword;
        && calls == old(calls) + (if animal then Animal.AnimalCalls(svc, old(nextTemp)) else [])
        && tempFiles == old(tempFiles) + (if animal then Animal.AnimalLeftover(svc, old(nextTemp)) else {})
        && nextTemp == old(nextTemp) + (if animal && Animal.TempCreated(svc) then 1 else 0)
    {
      if msg.msgType in Dispatch.MsgFuncMap {
        match Dispatch.MsgFuncMap[msg.msgType] {
          case OnText =>
            if msg.content in Dispatch.TextFuncMap {
              match Dispatch.TextFuncMap[msg.content] {
                case AnimalCommand =>
                  var reply := ReceiveTextAnimal(svc);
                  r := Some(reply);
              }
            } else {
              r := Some(TextReply(DefaultMsg));
            }
          case OnImage =>
            var reply := Ocr.ReceiveImage(msg, svc);
            r := Some(reply);
          case OnEvent =>
            r := Dispatch.ReceiveEvent(msg.event);
        }
      } else {
        r := Some(TextReply(UnsupportedPrefix + msg.msgType));
      }
    }
  }
}
