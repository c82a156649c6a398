/** The reply to an image message: the text the OCR provider detected, under a
    fixed banner, or the provider's error surfaced verbatim. */
module Ocr {
  import opened Messages

  /** Each detected line followed by a newline, in the order detected. */
  function Lines(d: seq<string>): (r: string)
    ensures |r| >= |d|
  {
    if d == [] then "" else d[0] + "\n" + Lines(d[1..])
  }

  /** The reply built from the provider's answer; it is always a text reply, and it
      opens with the banner exactly when the provider detected text. */
  function OcrReply(o: OcrOutcome): (r: Reply)
    ensures r.TextReply?
    ensures o.Detected? <==> OcrBanner <= r.content
    ensures o == Detected([]) ==> r.content == OcrBanner
  {
    match o
    case Detected(lines) => TextReply(OcrBanner + Lines(lines))
    case ApiError(e) =>
      assert (ApiErrorPrefix + e)[0] != OcrBanner[0];
      TextReply(ApiErrorPrefix + e)
    case RequestError(e) =>
      assert (RequestErrorPrefix + e)[0] != OcrBanner[0];
      TextReply(RequestErrorPrefix + e)
  }

  lemma {:induction false} LinesSnoc(d: seq<string>, x: string)
    ensures Lines(d + [x]) == Lines(d) + x + "\n"
  {
    if d == [] {
      assert [x][1..] == [];
    } else {
      assert (d + [x])[1..] == d[1..] + [x];
      LinesSnoc(d[1..], x);
    }
  }

  /** The formatted text has one newline per detection when no detection holds one
      itself: each detection ends up on a line of its own. */
  lemma {:induction false} LinesNewlineCount(d: seq<string>)
    requires forall i :: 0 <= i < |d| ==> '\n' !in d[i]
    ensures multiset(Lines(d))['\n'] == |d|
  {
    if d != [] {
      LinesNewlineCount(d[1..]);
      assert multiset(d[0])['\n'] == 0;
      assert multiset(d[0] + "\n" + Lines(d[1..])) ==
        multiset(d[0]) + multiset("\n") + multiset(Lines(d[1..]));
    }
  }

  /** Formatting a batch of detections in two parts gives the two texts one after
      the other: no line is reordered, dropped or merged. */
  lemma {:induction false} LinesAppend(a: seq<string>, b: seq<string>)
    ensures Lines(a + b) == Lines(a) + Lines(b)
  {
    if a == [] {
      assert a + b == b;
    } else {
      assert (a + b)[1..] == a[1..] + b;
      LinesAppend(a[1..], b);
    }
  }

  /** The image handler: asks the provider about the message's picture URL and,
      on success, accumulates the banner and the lines one by one. */
  method ReceiveImage(msg: Message, svc: Services) returns (r: Reply)
    ensures r == OcrReply(svc.ocr(msg.picUrl))
  {
    var text: string;
    match svc.ocr(msg.picUrl) {
    case ApiError(e) =>
      text := ApiErrorPrefix + e;
    case RequestError(e) =>
      text := RequestErrorPrefix + e;
    case Detected(lines) =>
      var body := OcrBanner;
      var i := 0;
      while i < |lines|
        invariant 0 <= i <= |lines|
        invariant body == OcrBanner + Lines(lines[..i])
      {
        LinesSnoc(lines[..i], lines[i]);
        assert lines[..i + 1] == lines[..i] + [lines[i]];
        body := body + lines[i] + "\n";
        i := i + 1;
      }
      assert lines[..i] == lines;
      text := body;
    }
    r := TextReply(text);
  }

  // Reading a reply back: the inverse of OcrReply, used to state that the reply
  // loses nothing of the provider's answer when no detected line contains a newline.
  // A detection that holds a newline reads the same as two detections.

  lemma EmbeddedNewlineReadsAsTwoLines()
    ensures OcrReply(Detected(["a\nb"])) == OcrReply(Detected(["a", "b"]))
  {
  }

  /** The index of the first newline of s, or |s| when there is none. */
  function FirstNewline(s: string): (k: nat)
    ensures k <= |s|
    ensures k < |s| ==> s[k] == '\n'
    ensures '\n' !in s[..k]
  {
    if s == [] || s[0] == '\n' then 0
    else
      var k := 1 + FirstNewline(s[1..]);
      assert s[..k] == [s[0]] + s[1..][..k - 1];
      k
  }

  /** The lines of a text, each ended by a newline (a last line without one is kept). */
  function SplitLines(s: string): (d: seq<string>)
    ensures forall i :: 0 <= i < |d| ==> '\n' !in d[i]
    decreases |s|
  {
    if s == [] then []
    else
      var k := FirstNewline(s);
      if k == |s| then [s] else [s[..k]] + SplitLines(s[k + 1..])
  }

  function DecodeOcrReply(r: Reply): (o: Option<OcrOutcome>)
    ensures r.ImageReply? ==> o.None?
  {
    match r
    case ImageReply(_) => None
    case TextReply(c) =>
      if OcrBanner <= c then Some(Detected(SplitLines(c[|OcrBanner|..])))
      else if ApiErrorPrefix <= c then Some(ApiError(c[|ApiErrorPrefix|..]))
      else if RequestErrorPrefix <= c then Some(RequestError(c[|RequestErrorPrefix|..]))
      else None
  }

  lemma FirstNewlineAfterLine(x: string, rest: string)
    requires '\n' !in x
    ensures FirstNewline(x + "\n" + rest) == |x|
  {
    var s := x + "\n" + rest;
    assert s[|x|] == '\n';
    assert s[..|x|] == x;
  }

  /** Splitting the formatted lines gives back the detections, as long as no
      detection itself contains a newline. */
  lemma {:induction false} SplitLinesOfLines(d: seq<string>)
    requires forall i :: 0 <= i < |d| ==> '\n' !in d[i]
    ensures SplitLines(Lines(d)) == d
  {
    if d != [] {
      var rest := Lines(d[1..]);
      var s := d[0] + "\n" + rest;
      FirstNewlineAfterLine(d[0], rest);
      assert s[..|d[0]|] == d[0];
      assert s[|d[0]| + 1..] == rest;
      SplitLinesOfLines(d[1..]);
      assert d == [d[0]] + d[1..];
    }
  }

  /** Round trip: the reply tells which outcome the provider returned and carries
      its whole content: the detected lines in order, as long as none of them
      contains a newline, or the error message. */
  lemma OcrReplyRoundTrip(o: OcrOutcome)
    requires o.Detected? ==> forall i :: 0 <= i < |o.lines| ==> '\n' !in o.lines[i]
    ensures DecodeOcrReply(OcrReply(o)) == Some(o)
  {
    var c := OcrReply(o).content;
    match o
    case Detected(lines) =>
      assert c[|OcrBanner|..] == Lines(lines);
      SplitLinesOfLines(lines);
    case ApiError(e) =>
      assert c[|ApiErrorPrefix|..] == e;
    case RequestError(e) =>
      assert c[0] != ApiErrorPrefix[0];
      assert c[|RequestErrorPrefix|..] == e;
  }
}
