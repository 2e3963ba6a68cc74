/**
 * The image-analysis page: a captured image arrives as a data URI, is
 * turned into a binary blob, uploaded, and the page steps through idle,
 * uploading, success and error as the upload settles or is cancelled.
 */
module AIRecommendations {
  import opened Wrappers
  import opened Text
  import opened Json

  newtype byte = x: int | 0 <= x < 256

  datatype Blob = Blob(bytes: seq<byte>, mimeType: string)

  // ---------------------------------------------------------------------
  // data URI to blob

  /**
   * `String(uri.split(',')[1])`, the text handed to `atob`: the piece after
   * the first comma, or "undefined" when there is no comma.
   */
  function PayloadSegment(uri: string): string
  {
    var parts := Split(uri, ',');
    if |parts| > 1 then parts[1] else "undefined"
  }

  /**
   * `uri.split(',')[0].split(':')[1].split(';')[0]`: the text between the
   * first ':' and the first ';' of the header before the first comma;
   * `None` where the header has no ':' and the chain throws.
   */
  function MimeType(uri: string): Option<string>
  {
    var header := Split(uri, ',')[0];
    var fields := Split(header, ':');
    if |fields| < 2 then None else Some(Split(fields[1], ';')[0])
  }

  /** Storing a character code into a `Uint8Array` keeps it modulo 256. */
  function ToUint8(c: char): byte
  {
    ((c as int) % 256) as byte
  }

  /** The buffer filled from a decoded text: one byte per character. */
  function Bytes(s: string): (r: seq<byte>)
    ensures |r| == |s|
    ensures forall i :: 0 <= i < |s| ==> r[i] == ToUint8(s[i])
  {
    seq(|s|, i requires 0 <= i < |s| => ToUint8(s[i]))
  }

  /**
   * `dataURItoBlob`: the payload is decoded first (`atob`, `None` when it
   * throws), then the MIME type is taken from the header, and the decoded
   * characters are copied one by one into a fresh byte buffer.
   */
  method DataUriToBlob(uri: string, atob: string -> Option<string>) returns (r: Result<Blob, string>)
    ensures atob(PayloadSegment(uri)).None? ==> r == Err("InvalidCharacterError")
    ensures atob(PayloadSegment(uri)).Some? && MimeType(uri).None? ==> r == Err("TypeError")
    ensures atob(PayloadSegment(uri)).Some? && MimeType(uri).Some? ==>
              r == Ok(Blob(Bytes(atob(PayloadSegment(uri)).value), MimeType(uri).value))
  {
    var decoded := atob(PayloadSegment(uri));
    if decoded.None? {
      return Err("InvalidCharacterError");
    }
    var byteString := decoded.value;
    var mime := MimeType(uri);
    if mime.None? {
      return Err("TypeError");
    }
    var ia := new byte[|byteString|];
    for i := 0 to |byteString|
      invariant forall j :: 0 <= j < i ==> ia[j] == ToUint8(byteString[j])
    {
      ia[i] := ToUint8(byteString[i]);
    }
    assert ia[..] == Bytes(byteString);
    r := Ok(Blob(ia[..], mime.value));
  }

  /**
   * A data URI `data:<mime>;base64,<payload>` gives back its MIME type and
   * its payload, provided the MIME type holds none of `,` `:` `;` and the
   * payload no comma (a base64 text never has one).
   */
  lemma DataUriParts(mime: string, payload: string)
    requires ',' !in mime && ':' !in mime && ';' !in mime && ',' !in payload
    ensures MimeType("data:" + mime + ";base64," + payload) == Some(mime)
    ensures PayloadSegment("data:" + mime + ";base64," + payload) == payload
  {
    var header := "data:" + mime + ";base64";
    var uri := "data:" + mime + ";base64," + payload;
    assert ',' !in header by {
      assert header == "data:" + mime + ";base64";
      forall k | 0 <= k < |header| ensures header[k] != ',' {
        if k >= 5 && k < 5 + |mime| { assert header[k] == mime[k - 5]; }
      }
    }
    assert uri == header + [','] + payload;
    SplitPair(header, ',', payload);
    var tail := mime + ";base64";
    assert ':' !in tail by {
      forall k | 0 <= k < |tail| ensures tail[k] != ':' {
        if k < |mime| { assert tail[k] == mime[k]; }
      }
    }
    assert header == "data" + [':'] + tail;
    SplitPair("data", ':', tail);
    assert tail == mime + [';'] + "base64";
    SplitAtFirstSeparator(mime, ';', "base64");
  }

  /** Without a comma the decoder is handed the text "undefined". */
  lemma NoCommaDecodesUndefined(uri: string)
    requires ',' !in uri
    ensures PayloadSegment(uri) == "undefined"
  {
    SplitWithoutSeparator(uri, ',');
  }

  /** A header without ':' makes the MIME lookup throw. */
  lemma NoColonThrows(uri: string)
    requires ':' !in uri
    ensures MimeType(uri).None?
  {
    var header := Split(uri, ',')[0];
    SplitThenJoin(uri, ',');
    JoinKeepsPart(Split(uri, ','), ',', ':');
    SplitWithoutSeparator(header, ':');
  }

  /** A character absent from a join is absent from its first part. */
  lemma JoinKeepsPart(parts: seq<string>, sep: char, c: char)
    requires |parts| >= 1 && c !in Join(parts, sep)
    ensures c !in parts[0]
  {
    if |parts| > 1 {
      assert Join(parts, sep) == parts[0] + [sep] + Join(parts[1..], sep);
      forall k | 0 <= k < |parts[0]| ensures parts[0][k] != c {
        assert Join(parts, sep)[k] == parts[0][k];
      }
    }
  }

  /** Decoded text is Latin-1, so every byte equals its character's code and the bytes read back as the text. */
  lemma BytesKeepLatin1(s: string)
    requires forall i :: 0 <= i < |s| ==> s[i] as int < 256
    ensures forall i :: 0 <= i < |s| ==> Bytes(s)[i] as int == s[i] as int
    ensures seq(|s|, i requires 0 <= i < |s| => Bytes(s)[i] as int as char) == s
  {
  }

  // ---------------------------------------------------------------------
  // the upload status machine

  datatype CaptureStatus = Idle | Uploading | Succeeded | Failed

  /** How an upload settles: aborted, a network failure, or a response with its `ok` flag and parsed body. */
  datatype UploadOutcome = Aborted | NetworkFailure | Response(ok: bool, body: Option<Json>)

  /** "The upload was cancelled". */
  const CancelledText: string := "ההעלאה בוטלה"

  /** "An error occurred processing the image. Try again." */
  const FailureText: string := "אירעה שגיאה בעיבוד התמונה. נסה שוב."

  /** `data.data.analysis` when `data.status === 'success'` and both `data.data` and the analysis are truthy. */
  function Analysis(body: Option<Json>): Option<Json>
  {
    var inner := Get(body, "data");
    if Get(body, "status") == Some(JStr("success")) && Defined(inner) && Defined(Get(inner, "analysis"))
    then Get(inner, "analysis") else None
  }

  /** The status, prediction and error a settled upload leaves. */
  datatype Settlement = Settlement(status: CaptureStatus, prediction: Option<Json>, error: Option<string>)

  /** The prediction shown on success: `{ response: analysis }`. */
  function PredictionOf(analysis: Json): Json
  {
    JObj(map["response" := analysis])
  }

  function Settle(outcome: UploadOutcome): Settlement
  {
    match outcome
    case Response(true, body) =>
      if Analysis(body).Some? then Settlement(Succeeded, Some(PredictionOf(Analysis(body).value)), None)
      else Settlement(Failed, None, Some(FailureText))
    case Response(false, _) => Settlement(Failed, None, Some(FailureText))
    case NetworkFailure => Settlement(Failed, None, Some(FailureText))
    case Aborted => Settlement(Failed, None, Some(CancelledText))
  }

  /**
   * Success exactly for an ok response whose body reports success with a
   * truthy analysis, and then the prediction wraps that analysis as its
   * `response`; every other
   * outcome is an error, with the cancellation message only for an abort.
   */
  lemma SettleRules(outcome: UploadOutcome)
    ensures var s := Settle(outcome);
            && (s.status == Succeeded <==> outcome.Response? && outcome.ok && Analysis(outcome.body).Some?)
            && (s.status == Succeeded ==>
                  && s.prediction.Some? && s.error.None?
                  && Get(s.prediction, "response") == Analysis(outcome.body)
                  && Truthy(Get(s.prediction, "response").value))
            && (s.status != Succeeded ==> s.status == Failed && s.prediction.None? && s.error.Some?)
            && (s.error == Some(CancelledText) <==> outcome.Aborted?)
  {
    assert CancelledText != FailureText by { assert CancelledText[1] != FailureText[1]; }
  }

  /** A body like `{status: 'success', data: {analysis}}` succeeds exactly when the analysis is truthy. */
  lemma AnalysisOfWellFormedBody(analysis: Json)
    ensures var body := JObj(map["status" := JStr("success"), "data" := JObj(map["analysis" := analysis])]);
            (Analysis(Some(body)).Some? <==> Truthy(analysis))
            && (Truthy(analysis) ==> Analysis(Some(body)) == Some(analysis))
  {
  }

  class CaptureSession {
    var status: CaptureStatus
    var prediction: Option<Json>
    var error: Option<string>
    var preview: Option<string>
    /** A request is in flight (the abort handle is set). */
    var pending: bool
    /** The in-flight request has been aborted. */
    var abortRequested: bool

    constructor ()
      ensures status == Idle && prediction.None? && error.None? && preview.None?
      ensures !pending && !abortRequested
    {
      status := Idle;
      prediction := None;
      error := None;
      preview := None;
      pending := false;
      abortRequested := false;
    }

    /**
     * A captured image: error and prediction are cleared, the preview set
     * and the status becomes 'uploading'; the request starts only when the
     * image converts to a blob. A conversion failure rejects the handler
     * before its `try`, so the status stays 'uploading'.
     */
    method Capture(imageSrc: string, atob: string -> Option<string>) returns (blob: Result<Blob, string>)
      modifies this
      ensures status == Uploading && prediction.None? && error.None? && preview == Some(imageSrc)
      ensures blob.Ok? <==> atob(PayloadSegment(imageSrc)).Some? && MimeType(imageSrc).Some?
      ensures blob.Ok? ==> pending && !abortRequested
      ensures blob.Err? ==> pending == old(pending) && abortRequested == old(abortRequested)
    {
      error := None;
      prediction := None;
      preview := Some(imageSrc);
      status := Uploading;
      blob := DataUriToBlob(imageSrc, atob);
      if blob.Err? {
        return;
      }
      pending := true;
      abortRequested := false;
    }

    /**
     * The request settles: an aborted request settles as an abort whatever
     * the server did; the abort handle is cleared in every case.
     */
    method Finish(outcome: UploadOutcome)
      requires pending
      modifies this
      ensures var s := Settle(if old(abortRequested) then Aborted else outcome);
              status == s.status && prediction == s.prediction && error == s.error
      ensures preview == old(preview) && !pending && !abortRequested
    {
      var s := Settle(if abortRequested then Aborted else outcome);
      status := s.status;
      prediction := s.prediction;
      error := s.error;
      pending := false;
      abortRequested := false;
    }

    /** Cancel: aborts the request in flight, if any, returns to 'idle' and drops the preview. */
    method Cancel()
      modifies this
      ensures abortRequested == (old(abortRequested) || old(pending))
      ensures status == Idle && preview.None?
      ensures pending == old(pending) && prediction == old(prediction) && error == old(error)
    {
      if pending {
        abortRequested := true;
      }
      status := Idle;
      preview := None;
    }
  }

  /**
   * Cancelling an upload shows 'idle' only until the aborted request
   * settles; the page then shows 'error' with the cancellation message.
   */
  method CancelledUploadEndsInError(session: CaptureSession, imageSrc: string, atob: string -> Option<string>, outcome: UploadOutcome)
    requires atob(PayloadSegment(imageSrc)).Some? && MimeType(imageSrc).Some?
    modifies session
    ensures session.status == Failed && session.error == Some(CancelledText) && session.prediction.None?
  {
    var _ := session.Capture(imageSrc, atob);
    session.Cancel();
    assert session.status == Idle;
    session.Finish(outcome);
  }
}
