/** The verification service of front/server.py: a stored reference digest written by
    `/generate-hash` and read by `/predict`, and the `/predict` pipeline
    tamper check -> QR decode -> shortener resolution -> six lexical features -> classifier. */
module Server {
  import opened Wrappers
  import opened Stages
  import Text
  import Urls
  import opened Digests
  import opened Shorteners

  /** `extract_url_from_qr`, once the image has been read: the first payload in scan order. */
  function ExtractUrlFromQr(items: seq<string>): (r: Option<string>)
    ensures r.Some? <==> items != []
    ensures r.Some? ==> r.value == items[0]
  {
    if items != [] then Some(items[0]) else None
  }

  /** The six numbers `extract_features` computes, named. */
  datatype LexicalFeatures = LexicalFeatures(urlLength: nat, domainLength: nat, slashes: nat,
                                             dots: nat, hyphens: nat, shortened: nat)
  {
    /** The list handed to the classifier, in the order the model was trained on. */
    function Vector(): (v: seq<int>)
      ensures |v| == 6 && forall i :: 0 <= i < |v| ==> v[i] >= 0
    {
      [urlLength, domainLength, slashes, dots, hyphens, shortened]
    }
  }

  /** `extract_features`: URL length, domain length, numbers of '/', '.' and '-',
      and 1 for a shortened URL, 0 otherwise. */
  function ExtractFeatures(url: string): (f: LexicalFeatures)
    ensures f.domainLength <= f.urlLength && f.shortened <= 1
  {
    LexicalFeatures(|url|, |Urls.Netloc(url)|, Text.Count(url, '/'), Text.Count(url, '.'),
                    Text.Count(url, '-'), if IsShortenedUrl(url) then 1 else 0)
  }

  /** The domain length never exceeds the URL length, the three character counts together
      never exceed it either, and the last feature is 1 exactly for shortened URLs, 0 otherwise. */
  lemma FeatureBounds(url: string)
    ensures var f := ExtractFeatures(url);
            f.urlLength == |url| && f.domainLength == |Urls.Netloc(url)| && f.domainLength <= f.urlLength
            && f.slashes + f.dots + f.hyphens <= f.urlLength
            && f.shortened <= 1 && (f.shortened == 1 <==> IsShortenedUrl(url))
  {
    Urls.NetlocPathWithinUrl(url);
    Text.CountThreeBound(url, '/', '.', '-');
  }

  /** The three counts are the numbers of '/', '.' and '-' characters in the URL. */
  lemma FeaturesCountCharacters(url: string)
    ensures ExtractFeatures(url).slashes == multiset(url)['/']
    ensures ExtractFeatures(url).dots == multiset(url)['.']
    ensures ExtractFeatures(url).hyphens == multiset(url)['-']
  {
    Text.CountIsMultiplicity(url, '/');
    Text.CountIsMultiplicity(url, '.');
    Text.CountIsMultiplicity(url, '-');
  }

  /** `is_qr_tampered` on values: `None` when no reference file exists, otherwise whether
      the upload's hex digest differs from the file's text with surrounding whitespace removed. */
  function TamperVerdict(uploadHex: string, reference: Option<string>): (verdict: Option<bool>)
    ensures verdict.None? <==> reference.None?
    ensures reference.Some? && uploadHex == Text.Strip(reference.value) ==> verdict == Some(false)
  {
    if reference.None? then None else Some(uploadHex != Text.Strip(reference.value))
  }

  /** Enrolment round trip: once `/generate-hash` has stored the digest of an image,
      checking that same image reports it untampered. */
  lemma EnrolThenVerify(image: Bytes, sha: Bytes -> Digest)
    ensures TamperVerdict(HexDigest(sha(image)), Some(HexDigest(sha(image)))) == Some(false)
  {
    StripHexDigest(sha(image));
  }

  /** Against an enrolled digest, an upload is reported tampered exactly when its SHA-256
      digest differs from the enrolled image's. */
  lemma TamperedIffDigestDiffers(enrolled: Bytes, upload: Bytes, sha: Bytes -> Digest)
    ensures TamperVerdict(HexDigest(sha(upload)), Some(HexDigest(sha(enrolled))))
            == Some(sha(upload) != sha(enrolled))
  {
    StripHexDigest(sha(enrolled));
    HexDigestInjective(sha(upload), sha(enrolled));
  }

  /** The file `original_qr_hash.txt`, the one piece of state shared across requests. */
  class ReferenceStore {
    /** The file's text, or `None` while the file does not exist. */
    var contents: Option<string>

    constructor ()
      ensures contents == None
    {
      contents := None;
    }

    /** `/generate-hash`: without an image, refuse and leave the store alone; with one,
        store the hex digest of the image, replacing whatever was stored, and return it. */
    method GenerateQrHash(upload: Option<Bytes>, sha: Bytes -> Digest) returns (hashValue: Option<string>)
      modifies this
      ensures upload.None? ==> hashValue.None? && contents == old(contents)
      ensures upload.Some? ==> hashValue == Some(HexDigest(sha(upload.value))) && contents == hashValue
    {
      if upload.None? {
        return None;
      }
      var digest := HexDigest(sha(upload.value));
      contents := Some(digest);
      hashValue := Some(digest);
    }

    /** `is_qr_tampered`: reads the stored digest without changing it. */
    method IsQrTampered(image: Bytes, sha: Bytes -> Digest) returns (tampered: Option<bool>)
      ensures tampered.None? <==> contents.None?
      ensures tampered.Some? ==> (tampered.value <==> HexDigest(sha(image)) != Text.Strip(contents.value))
      ensures tampered == TamperVerdict(HexDigest(sha(image)), contents)
    {
      var newHash := HexDigest(sha(image));
      if contents.None? {
        return None;
      }
      var originalHash := Text.Strip(contents.value);
      tampered := Some(newHash != originalHash);
    }
  }

  /** Enrol an image, then check it: the stateful form of the round trip. */
  method EnrolAndCheck(store: ReferenceStore, image: Bytes, sha: Bytes -> Digest) returns (tampered: Option<bool>)
    modifies store
    ensures store.contents == Some(HexDigest(sha(image)))
    ensures tampered == Some(false)
  {
    var _ := store.GenerateQrHash(Some(image), sha);
    tampered := store.IsQrTampered(image, sha);
    EnrolThenVerify(image, sha);
  }

  const NoImageMessage := "No image uploaded"
  const NoReferenceMessage := "Original QR hash not found. Cannot verify tampering."
  const TamperedMessage := "QR Code has been tampered!"
  const NoUrlMessage := "No QR code detected or unable to extract URL"
  /** The prefix of the message of the catch-all handler; the exception text is not modelled. */
  const FailureMessage := "Failed to process request: "

  /** A `/predict` answer: an error object, or the classifier's label with the URL it judged. */
  datatype Reply = Error(message: string) | Prediction(prediction: int, resolvedUrl: string, tampered: bool)
  {
    function Status(): nat
    {
      if Error? then 400 else 200
    }
  }

  /** The URL that is classified: the redirect target when the URL is shortened and
      resolution gives a non-empty answer, the decoded URL otherwise. */
  function ClassifiedUrl(url: string, resolve: string -> Option<string>): string
  {
    if IsShortenedUrl(url) && Truthy(resolve(url)) then resolve(url).value else url
  }

  /** The answer of the last stages of `/predict` for a decoded URL: the prediction for
      the URL that is judged. */
  function JudgeUrl(url: string, resolve: string -> Option<string>, classify: seq<int> -> int): Reply
  {
    var judged := ClassifiedUrl(url, resolve);
    Prediction(classify(ExtractFeatures(judged).Vector()), judged, false)
  }

  /** The calls made after decoding a URL: the resolver only for a shortened URL, then the
      classifier. */
  function JudgeCalls(url: string): (calls: seq<Stage>)
    ensures InPipelineOrder(calls) && calls != [] && calls[|calls| - 1] == Classify
    ensures forall s :: s in calls ==> Rank(s) >= Rank(ResolveUrl)
  {
    (if IsShortenedUrl(url) then [ResolveUrl] else []) + [Classify]
  }

  /** The `/predict` decision as a function of what the collaborators answer:
      the reply, and the collaborator calls it made. */
  function PredictOutcome(reference: Option<string>, upload: Option<Bytes>, sha: Bytes -> Digest,
                          decode: Bytes -> DecodeResult, resolve: string -> Option<string>,
                          classify: seq<int> -> int): (r: (Reply, seq<Stage>))
    ensures r.1 == [] <==> upload.None?
    ensures upload.Some? ==> r.1[0] == HashUpload
  {
    if upload.None? then (Error(NoImageMessage), [])
    else
      var image := upload.value;
      var verdict := TamperVerdict(HexDigest(sha(image)), reference);
      if verdict.None? then (Error(NoReferenceMessage), [HashUpload])
      else if verdict.value then (Error(TamperedMessage), [HashUpload])
      else if decode(image).Unreadable? then (Error(FailureMessage), [HashUpload, DecodeQr])
      else
        var url := ExtractUrlFromQr(decode(image).items);
        if !Truthy(url) then (Error(NoUrlMessage), [HashUpload, DecodeQr])
        else
          (JudgeUrl(url.value, resolve, classify), [HashUpload, DecodeQr] + JudgeCalls(url.value))
  }

  /** `predict`, step by step as the handler runs: each stage either answers or hands on,
      and the answer and the calls made are those of `PredictOutcome`. */
  method Predict(store: ReferenceStore, upload: Option<Bytes>, sha: Bytes -> Digest,
                 decode: Bytes -> DecodeResult, resolve: string -> Option<string>,
                 classify: seq<int> -> int) returns (reply: Reply, calls: seq<Stage>)
    ensures (reply, calls) == PredictOutcome(store.contents, upload, sha, decode, resolve, classify)
  {
    calls := [];
    if upload.None? {
      return Error(NoImageMessage), calls;
    }
    var image := upload.value;

    // Step 1: tamper check
    calls := calls + [HashUpload];
    var tampered := store.IsQrTampered(image, sha);
    if tampered.None? {
      assert calls == [HashUpload];
      return Error(NoReferenceMessage), calls;
    } else if tampered.value {
      return Error(TamperedMessage), calls;
    }

    // Step 2: decode
    calls := calls + [DecodeQr];
    assert calls == [HashUpload, DecodeQr];
    var decoded := decode(image);
    if decoded.Unreadable? {
      return Error(FailureMessage), calls;
    }
    var extracted := ExtractUrlFromQr(decoded.items);
    if !Truthy(extracted) {
      return Error(NoUrlMessage), calls;
    }
    var url := extracted.value;
    ghost var decodedUrl := url;

    // Step 3: resolve a shortened URL, keeping the original when resolution gives nothing
    var resolvedUrl: Option<string> := None;
    if IsShortenedUrl(url) {
      calls := calls + [ResolveUrl];
      resolvedUrl := resolve(url);
      if Truthy(resolvedUrl) {
        url := resolvedUrl.value;
      }
    }
    assert url == ClassifiedUrl(decodedUrl, resolve);

    // Steps 4 and 5: features and classifier
    var features := ExtractFeatures(url);
    calls := calls + [Classify];
    assert calls == [HashUpload, DecodeQr] + JudgeCalls(decodedUrl);
    var result := classify(features.Vector());
    reply := Prediction(result, if Truthy(resolvedUrl) then resolvedUrl.value else url, false);
    assert reply == JudgeUrl(decodedUrl, resolve, classify);
  }

  /** Every collaborator is called at most once per request, in pipeline order. */
  lemma CallsInPipelineOrder(reference: Option<string>, upload: Option<Bytes>, sha: Bytes -> Digest,
                             decode: Bytes -> DecodeResult, resolve: string -> Option<string>,
                             classify: seq<int> -> int)
    ensures InPipelineOrder(PredictOutcome(reference, upload, sha, decode, resolve, classify).1)
  {
    if upload.Some? && TamperVerdict(HexDigest(sha(upload.value)), reference) == Some(false)
       && decode(upload.value).Payloads? && decode(upload.value).items != [] && decode(upload.value).items[0] != "" {
      JudgedCallsInPipelineOrder(reference, upload.value, sha, decode, resolve, classify);
    }
  }

  /** The calls of a request that reaches the resolver and classifier stages. */
  lemma JudgedCallsInPipelineOrder(reference: Option<string>, image: Bytes, sha: Bytes -> Digest,
                                   decode: Bytes -> DecodeResult, resolve: string -> Option<string>,
                                   classify: seq<int> -> int)
    requires TamperVerdict(HexDigest(sha(image)), reference) == Some(false)
    requires decode(image).Payloads? && decode(image).items != [] && decode(image).items[0] != ""
    ensures InPipelineOrder(PredictOutcome(reference, Some(image), sha, decode, resolve, classify).1)
  {
    JudgedTrace(reference, image, sha, decode, resolve, classify);
    JudgedTraceInOrder(PredictOutcome(reference, Some(image), sha, decode, resolve, classify).1,
                       decode(image).items[0]);
  }

  lemma JudgedTraceInOrder(calls: seq<Stage>, url: string)
    requires calls == [HashUpload, DecodeQr] + JudgeCalls(url)
    ensures InPipelineOrder(calls)
  {
    OrderedConcat([HashUpload, DecodeQr], JudgeCalls(url));
  }

  /** Once the image passes the tamper check and carries a URL, the trace is hashing,
      decoding and then the judging calls for that URL. */
  lemma JudgedTrace(reference: Option<string>, image: Bytes, sha: Bytes -> Digest,
                    decode: Bytes -> DecodeResult, resolve: string -> Option<string>,
                    classify: seq<int> -> int)
    requires TamperVerdict(HexDigest(sha(image)), reference) == Some(false)
    requires decode(image).Payloads? && decode(image).items != [] && decode(image).items[0] != ""
    ensures PredictOutcome(reference, Some(image), sha, decode, resolve, classify).1
            == [HashUpload, DecodeQr] + JudgeCalls(decode(image).items[0])
  {
    assert ExtractUrlFromQr(decode(image).items) == Some(decode(image).items[0]);
  }

  /** A missing reference or a digest mismatch ends the request with a 400 error after
      hashing alone: nothing is decoded, resolved or classified. */
  lemma TamperStageShortCircuits(reference: Option<string>, image: Bytes, sha: Bytes -> Digest,
                                 decode: Bytes -> DecodeResult, resolve: string -> Option<string>,
                                 classify: seq<int> -> int)
    requires reference.None? || HexDigest(sha(image)) != Text.Strip(reference.value)
    ensures var (reply, calls) := PredictOutcome(reference, Some(image), sha, decode, resolve, classify);
            reply.Error? && reply.Status() == 400 && calls == [HashUpload]
            && reply.message == (if reference.None? then NoReferenceMessage else TamperedMessage)
  {
  }

  /** An image whose digest matches the enrolled one always gets past the tamper stage
      to the decoder. */
  lemma EnrolledImageIsDecoded(enrolled: Bytes, sha: Bytes -> Digest,
                               decode: Bytes -> DecodeResult, resolve: string -> Option<string>,
                               classify: seq<int> -> int)
    ensures var (reply, calls) := PredictOutcome(Some(HexDigest(sha(enrolled))), Some(enrolled), sha, decode, resolve, classify);
            reply != Error(NoReferenceMessage) && reply != Error(TamperedMessage)
            && |calls| >= 2 && calls[..2] == [HashUpload, DecodeQr]
  {
    EnrolThenVerify(enrolled, sha);
  }

  /** With no payload, or an empty first payload, the answer is a 400 error and nothing is
      resolved or classified. */
  lemma NoUrlShortCircuits(reference: Option<string>, image: Bytes, sha: Bytes -> Digest,
                           decode: Bytes -> DecodeResult, resolve: string -> Option<string>,
                           classify: seq<int> -> int)
    requires TamperVerdict(HexDigest(sha(image)), reference) == Some(false)
    requires decode(image).Payloads? && (decode(image).items == [] || decode(image).items[0] == "")
    ensures PredictOutcome(reference, Some(image), sha, decode, resolve, classify)
            == (Error(NoUrlMessage), [HashUpload, DecodeQr])
  {
  }

  /** The resolver is called exactly when a decoded URL was found and it is shortened. */
  lemma ResolvesOnlyShortened(reference: Option<string>, image: Bytes, sha: Bytes -> Digest,
                              decode: Bytes -> DecodeResult, resolve: string -> Option<string>,
                              classify: seq<int> -> int)
    ensures var (reply, calls) := PredictOutcome(reference, Some(image), sha, decode, resolve, classify);
            ResolveUrl in calls <==>
              (TamperVerdict(HexDigest(sha(image)), reference) == Some(false)
               && decode(image).Payloads? && decode(image).items != [] && decode(image).items[0] != ""
               && IsShortenedUrl(decode(image).items[0]))
  {
  }

  /** A success reply says "not tampered", names the URL that was classified (the redirect
      target when there was one, the decoded URL otherwise) and carries the classifier's label
      for that URL's features. */
  lemma SuccessReply(reference: Option<string>, image: Bytes, sha: Bytes -> Digest,
                     decode: Bytes -> DecodeResult, resolve: string -> Option<string>,
                     classify: seq<int> -> int)
    ensures var (reply, calls) := PredictOutcome(reference, Some(image), sha, decode, resolve, classify);
            reply.Prediction? ==>
              reply.Status() == 200 && !reply.tampered
              && decode(image).Payloads? && decode(image).items != []
              && reply.resolvedUrl == ClassifiedUrl(decode(image).items[0], resolve)
              && reply.prediction == classify(ExtractFeatures(reply.resolvedUrl).Vector())
              && calls[|calls| - 1] == Classify
  {
  }

  /** Every decoded URL that passes the tamper check is classified: the classifier is the
      last call, and the answer is a prediction. */
  lemma DecodedUrlIsClassified(reference: Option<string>, image: Bytes, sha: Bytes -> Digest,
                               decode: Bytes -> DecodeResult, resolve: string -> Option<string>,
                               classify: seq<int> -> int)
    requires TamperVerdict(HexDigest(sha(image)), reference) == Some(false)
    requires decode(image).Payloads? && decode(image).items != [] && decode(image).items[0] != ""
    ensures var (reply, calls) := PredictOutcome(reference, Some(image), sha, decode, resolve, classify);
            reply.Prediction? && calls != [] && calls[|calls| - 1] == Classify
  {
  }

  /** When resolution of a shortened URL fails, the decoded URL itself is classified and
      reported. */
  lemma ResolutionFailureClassifiesOriginal(reference: Option<string>, image: Bytes, sha: Bytes -> Digest,
                                            decode: Bytes -> DecodeResult, resolve: string -> Option<string>,
                                            classify: seq<int> -> int, url: string)
    requires TamperVerdict(HexDigest(sha(image)), reference) == Some(false)
    requires decode(image).Payloads? && decode(image).items != [] && decode(image).items[0] == url
    requires url != "" && IsShortenedUrl(url) && !Truthy(resolve(url))
    ensures PredictOutcome(reference, Some(image), sha, decode, resolve, classify)
            == (Prediction(classify(ExtractFeatures(url).Vector()), url, false), [HashUpload, DecodeQr, ResolveUrl, Classify])
  {
    assert ExtractUrlFromQr(decode(image).items) == Some(url);
    assert PredictOutcome(reference, Some(image), sha, decode, resolve, classify)
           == (JudgeUrl(url, resolve, classify), [HashUpload, DecodeQr] + JudgeCalls(url));
    assert ClassifiedUrl(url, resolve) == url;
    assert JudgeCalls(url) == [ResolveUrl, Classify];
    assert [HashUpload, DecodeQr] + [ResolveUrl, Classify] == [HashUpload, DecodeQr, ResolveUrl, Classify];
  }
}
