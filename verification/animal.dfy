/** The "动物" command: fetch a random animal fact, take its image link, download the
    image, store it in a temp file, upload that file to the media library and answer
    with the uploaded image. The chain stops at the first failing step with a text
    reply naming the step. These functions say what the chain answers and which
    outbound calls it makes; Bot.Runtime performs it over the temp-file state. */
module Animal {
  import opened Messages

  /** One outbound call of the chain. Temp files are known by a number. */
  datatype Call =
    | FetchAnimal
    | Download(url: string)
    | CreateTemp
    | WriteTemp(file: nat, data: seq<Byte>)
    | Upload(file: nat)
    | RemoveTemp(file: nat)

  /** The position of a call in the chain fetch, download, create, write, upload, remove. */
  function Stage(c: Call): nat
  {
    match c
    case FetchAnimal => 0
    case Download(_) => 1
    case CreateTemp => 2
    case WriteTemp(_, _) => 3
    case Upload(_) => 4
    case RemoveTemp(_) => 5
  }

  /** Whether a call, made in the world svc, ended in an error. Fetching counts as
      failed when it returned no usable image link; errors of the removal are ignored. */
  predicate CallFailed(c: Call, svc: Services)
  {
    match c
    case FetchAnimal => svc.fetchAnimal.Err? || svc.fetchAnimal.value.imageLink == ""
    case Download(u) => svc.download(u).Err?
    case CreateTemp => svc.createTemp.Failed?
    case WriteTemp(_, _) => svc.writeTemp.Failed?
    case Upload(_) => svc.upload.Err?
    case RemoveTemp(_) => false
  }

  /** What downloading the image at url and uploading it returns: the media id, or
      the first error, prefixed with the step that failed. */
  function DownloadUploadResult(url: string, svc: Services): (res: Result<string>)
    ensures res.Ok? <==>
      svc.download(url).Ok? && svc.createTemp.Done? && svc.writeTemp.Done? && svc.upload.Ok?
    ensures res.Ok? ==> res.value == svc.upload.value
    ensures svc.download(url).Err? ==> res == Err(DownloadFailedPrefix + svc.download(url).msg)
    ensures svc.download(url).Ok? && svc.createTemp.Failed? ==>
      res == Err(CreateFailedPrefix + svc.createTemp.msg)
    ensures svc.download(url).Ok? && svc.createTemp.Done? && svc.writeTemp.Failed? ==>
      res == Err(WriteFailedPrefix + svc.writeTemp.msg)
    ensures svc.download(url).Ok? && svc.createTemp.Done? && svc.writeTemp.Done? && svc.upload.Err? ==>
      res == Err(UploadFailedPrefix + svc.upload.msg)
  {
    match svc.download(url)
    case Err(e) => Err(DownloadFailedPrefix + e)
    case Ok(_) =>
      if svc.createTemp.Failed? then Err(CreateFailedPrefix + svc.createTemp.msg)
      else if svc.writeTemp.Failed? then Err(WriteFailedPrefix + svc.writeTemp.msg)
      else match svc.upload
        case Err(e) => Err(UploadFailedPrefix + e)
        case Ok(id) => Ok(id)
  }

  /** The calls made by downloading and uploading, with `file` the number the temp
      file gets if it is created. The removal is registered only once the write has
      succeeded, and then runs after the upload whatever its outcome. */
  function DownloadUploadCalls(url: string, svc: Services, file: nat): (calls: seq<Call>)
    ensures 1 <= |calls| <= 5 && calls[0] == Download(url)
    ensures forall i :: 0 <= i < |calls| ==> Stage(calls[i]) == i + 1
    ensures RemoveTemp(file) in calls <==>
      svc.download(url).Ok? && svc.createTemp.Done? && svc.writeTemp.Done?
  {
    [Download(url)] +
    match svc.download(url)
    case Err(_) => []
    case Ok(bytes) =>
      [CreateTemp] +
      if svc.createTemp.Failed? then []
      else
        [WriteTemp(file, bytes)] +
        if svc.writeTemp.Failed? then [] else [Upload(file), RemoveTemp(file)]
  }

  /** The temp file outlives the call exactly when it was created and writing to it
      failed: the removal was not registered yet. */
  predicate LeavesTempFile(url: string, svc: Services)
  {
    svc.download(url).Ok? && svc.createTemp.Done? && svc.writeTemp.Failed?
  }

  /** The image link the fetch produced, empty when the fetch failed. */
  function FetchedLink(svc: Services): string
  {
    if svc.fetchAnimal.Ok? then svc.fetchAnimal.value.imageLink else ""
  }

  /** The reply to the "动物" command. It is never missing; it is an image exactly
      when every step succeeded, and then it shows the uploaded media. */
  function AnimalReply(svc: Services): (r: Reply)
    ensures r.ImageReply? <==>
      FetchedLink(svc) != "" && DownloadUploadResult(FetchedLink(svc), svc).Ok?
    ensures r.ImageReply? ==> r.mediaId == svc.upload.value
    ensures svc.fetchAnimal.Err? ==> r == TextReply(FetchFailedPrefix + svc.fetchAnimal.msg)
    ensures svc.fetchAnimal.Ok? && FetchedLink(svc) == "" ==> r == TextReply(LinkFailedMsg)
    ensures FetchedLink(svc) != "" && DownloadUploadResult(FetchedLink(svc), svc).Err? ==>
      r == TextReply(DownloadUploadResult(FetchedLink(svc), svc).msg)
  {
    match svc.fetchAnimal
    case Err(e) => TextReply(FetchFailedPrefix + e)
    case Ok(fact) =>
      if fact.imageLink == "" then TextReply(LinkFailedMsg)
      else match DownloadUploadResult(fact.imageLink, svc)
        case Err(e) => TextReply(e)
        case Ok(mediaId) => ImageReply(mediaId)
  }

  /** The calls made while answering the command. */
  function AnimalCalls(svc: Services, file: nat): (calls: seq<Call>)
    ensures 1 <= |calls| <= 6 && calls[0] == FetchAnimal
  {
    [FetchAnimal] +
    if CallFailed(FetchAnimal, svc) then []
    else DownloadUploadCalls(svc.fetchAnimal.value.imageLink, svc, file)
  }

  /** Whether the command creates a temp file (the number it uses is then taken). */
  predicate TempCreated(svc: Services)
  {
    FetchedLink(svc) != "" && svc.download(FetchedLink(svc)).Ok? && svc.createTemp.Done?
  }

  /** The temp files the command leaves behind: the one it created, when writing to
      it failed, and none otherwise. */
  function AnimalLeftover(svc: Services, file: nat): (left: set<nat>)
    ensures left <= {file}
  {
    if FetchedLink(svc) != "" && LeavesTempFile(FetchedLink(svc), svc) then {file} else {}
  }

  /** The chain runs its steps in order, each on the previous step's output, and
      stops at the first failure: after a failed call only the cleanup of an
      already written temp file follows. The reply is an image exactly when no call
      failed, and then all six calls were made. */
  lemma AnimalChainStopsAtFailure(svc: Services, file: nat)
    ensures var calls := AnimalCalls(svc, file);
      && (forall i :: 0 <= i < |calls| ==> Stage(calls[i]) == i)
      && (forall i, j :: 0 <= i < j < |calls| && CallFailed(calls[i], svc) ==> calls[j] == RemoveTemp(file))
      && (AnimalReply(svc).ImageReply? <==> forall i :: 0 <= i < |calls| ==> !CallFailed(calls[i], svc))
      && (AnimalReply(svc).ImageReply? ==> |calls| == 6)
  {
    var calls := AnimalCalls(svc, file);
    if !CallFailed(FetchAnimal, svc) {
      var link := svc.fetchAnimal.value.imageLink;
      match svc.download(link)
      case Err(_) =>
        assert calls == [FetchAnimal, Download(link)];
        assert CallFailed(calls[1], svc);
      case Ok(bytes) =>
        if svc.createTemp.Failed? {
          assert calls == [FetchAnimal, Download(link), CreateTemp];
          assert CallFailed(calls[2], svc);
        } else if svc.writeTemp.Failed? {
          assert calls == [FetchAnimal, Download(link), CreateTemp, WriteTemp(file, bytes)];
          assert CallFailed(calls[3], svc);
        } else {
          assert calls == [FetchAnimal, Download(link), CreateTemp, WriteTemp(file, bytes),
                           Upload(file), RemoveTemp(file)];
          assert svc.upload.Err? ==> CallFailed(calls[4], svc);
        }
    }
  }

  /** Each call gets what the step before it produced: the download uses the fetched
      link, the write the downloaded bytes, the upload and the removal the temp file
      that was created. */
  lemma AnimalCallsUseStepOutputs(svc: Services, file: nat)
    ensures forall c :: c in AnimalCalls(svc, file) ==>
      && (c.Download? ==> c.url == FetchedLink(svc) != "")
      && (c.WriteTemp? ==>
           (c.file == file && svc.download(FetchedLink(svc)).Ok? &&
            c.data == svc.download(FetchedLink(svc)).value))
      && (c.Upload? ==> c.file == file)
      && (c.RemoveTemp? ==> c.file == file)
  {
  }

  /** Cleanup: a temp file is removed exactly when the write succeeded, and is
      otherwise left behind exactly when it was created. */
  lemma AnimalTempCleanup(svc: Services, file: nat)
    ensures var calls := AnimalCalls(svc, file);
      && (RemoveTemp(file) in calls ==> calls[|calls| - 1] == RemoveTemp(file))
      && (AnimalLeftover(svc, file) == {file} <==>
           CreateTemp in calls && !svc.createTemp.Failed? && RemoveTemp(file) !in calls)
  {
  }
}
