/** The verification service of front/model.py: a fixed reference image compared by digest
    (failing closed), the QR payload, an exact-match fast path for the expected hospital URL,
    shortener resolution that must succeed, and a classifier over six URL features. */
module ModelApp {
  import opened Wrappers
  import opened Stages
  import Text
  import Urls
  import opened Digests
  import opened Shorteners

  /** `EXPECTED_HOSPITAL_URL`. */
  const ExpectedHospitalUrl := "https://real-hospital.com/certificate/12345"

  const RealLabel := "Real Hospital URL"
  const FakeLabel := "Fake Hospital URL"
  const NotLoadedLabel := "Model not loaded"
  const TamperedLabel := "Fake Certificate (Tampered QR Image)"
  const NoImageMessage := "No image uploaded"
  const NoQrMessage := "No QR code detected"
  const UnresolvedMessage := "Could not resolve shortened URL"

  /** The dictionary `extract_url_features` builds, one field per key. */
  datatype UrlFeatures = UrlFeatures(domainLength: nat, numSubdomains: nat, containsHospital: nat,
                                     containsMedical: nat, containsClinic: nat, pathLength: nat)

  /** Python's `int(b)` for a boolean. */
  function Flag(b: bool): (n: nat)
    ensures n <= 1 && (n == 1 <==> b)
  {
    if b then 1 else 0
  }

  /** `extract_url_features`: the netloc's length and number of dots, whether "hospital",
      "medical" and "clinic" occur in the lower-cased netloc, and the path's length. */
  function ExtractUrlFeatures(url: string): (f: UrlFeatures)
    ensures f.numSubdomains <= f.domainLength
    ensures f.containsHospital <= 1 && f.containsMedical <= 1 && f.containsClinic <= 1
  {
    var domain := Urls.Netloc(url);
    var lowered := Text.Lower(domain);
    UrlFeatures(|domain|, Text.Count(domain, '.'),
                Flag(Text.Contains(lowered, "hospital")),
                Flag(Text.Contains(lowered, "medical")),
                Flag(Text.Contains(lowered, "clinic")),
                |Urls.Path(url)|)
  }

  /** The dot count never exceeds the domain length nor the URL's own dot count, the domain
      and the path together never exceed the URL, and each keyword flag is 0 or 1, 1 exactly when the keyword occurs
      somewhere in the lower-cased netloc. */
  lemma UrlFeatureBounds(url: string)
    ensures var f := ExtractUrlFeatures(url);
            f.numSubdomains <= f.domainLength && f.numSubdomains <= Text.Count(url, '.')
            && f.domainLength + f.pathLength <= |url|
            && f.containsHospital <= 1 && f.containsMedical <= 1 && f.containsClinic <= 1
            && (f.containsHospital == 1 <==> exists i: nat :: Text.OccursAt(Text.Lower(Urls.Netloc(url)), "hospital", i))
            && (f.containsMedical == 1 <==> exists i: nat :: Text.OccursAt(Text.Lower(Urls.Netloc(url)), "medical", i))
            && (f.containsClinic == 1 <==> exists i: nat :: Text.OccursAt(Text.Lower(Urls.Netloc(url)), "clinic", i))
  {
    Urls.NetlocPathWithinUrl(url);
    Urls.NetlocCountBound(url, '.');
    var lowered := Text.Lower(Urls.Netloc(url));
    Text.ContainsIff(lowered, "hospital");
    Text.ContainsIff(lowered, "medical");
    Text.ContainsIff(lowered, "clinic");
  }

  /** The keyword flags read the netloc only: two URLs with the same netloc get the same
      flags, whatever their paths. */
  lemma KeywordFlagsIgnorePath(u: string, v: string)
    requires Urls.Netloc(u) == Urls.Netloc(v)
    ensures ExtractUrlFeatures(u).containsHospital == ExtractUrlFeatures(v).containsHospital
    ensures ExtractUrlFeatures(u).containsMedical == ExtractUrlFeatures(v).containsMedical
    ensures ExtractUrlFeatures(u).containsClinic == ExtractUrlFeatures(v).containsClinic
    ensures ExtractUrlFeatures(u).numSubdomains == ExtractUrlFeatures(v).numSubdomains
  {
  }

  /** A query string or fragment changes no feature at all. */
  lemma FeaturesIgnoreQuery(url: string, tail: string)
    requires '?' !in url && '#' !in url
    requires tail != [] && tail[0] in Urls.PathStops
    ensures ExtractUrlFeatures(url + tail) == ExtractUrlFeatures(url)
  {
    Urls.QueryIgnored(url, tail);
  }

  /** `predict_url`: "Model not loaded" without a classifier; otherwise "Real Hospital URL"
      when the classifier answers 1 for the URL's features and "Fake Hospital URL" for any
      other answer. */
  function PredictUrl(classifier: Option<UrlFeatures -> int>, url: string): (answer: string)
    ensures answer == NotLoadedLabel <==> classifier.None?
    ensures answer == RealLabel <==> classifier.Some? && classifier.value(ExtractUrlFeatures(url)) == 1
    ensures answer == FakeLabel <==> classifier.Some? && classifier.value(ExtractUrlFeatures(url)) != 1
  {
    if classifier.None? then NotLoadedLabel
    else if classifier.value(ExtractUrlFeatures(url)) == 1 then RealLabel
    else FakeLabel
  }

  /** The label depends on the URL only through its features: adding a query string or a
      fragment never changes it. */
  lemma PredictUrlIgnoresQuery(classifier: Option<UrlFeatures -> int>, url: string, tail: string)
    requires '?' !in url && '#' !in url
    requires tail != [] && tail[0] in Urls.PathStops
    ensures PredictUrl(classifier, url + tail) == PredictUrl(classifier, url)
  {
    FeaturesIgnoreQuery(url, tail);
  }

  /** `read_qr_code`, once the image has been handed to the decoder: the first payload, and
      `None` when the image cannot be loaded or holds no QR code. */
  function ReadQrCode(decoded: DecodeResult): (r: Option<string>)
    ensures r.Some? <==> decoded.Payloads? && decoded.items != []
    ensures r.Some? ==> r.value == decoded.items[0]
  {
    match decoded
    case Unreadable => None
    case Payloads(items) => if items == [] then None else Some(items[0])
  }

  /** `get_image_hash`: the hex digest of a file's bytes, `None` when it cannot be read. */
  function GetImageHash(file: Option<Bytes>, sha: Bytes -> Digest): (h: Option<string>)
    ensures h.Some? <==> file.Some?
    ensures h.Some? ==> |h.value| == 64
  {
    if file.None? then None else Some(HexDigest(sha(file.value)))
  }

  /** `is_qr_tampered`: the two digests are compared only when both are present and
      non-empty; otherwise the image is taken as tampered. */
  function IsQrTampered(original: Option<Bytes>, upload: Option<Bytes>, sha: Bytes -> Digest): (tampered: bool)
    ensures original.None? || upload.None? ==> tampered
    ensures original == upload ==> (tampered <==> original.None?)
  {
    var originalHash := GetImageHash(original, sha);
    var uploadedHash := GetImageHash(upload, sha);
    if Truthy(originalHash) && Truthy(uploadedHash) then originalHash.value != uploadedHash.value
    else true
  }

  /** Fail-closed tamper check: tampered exactly when one of the files cannot be read or
      their SHA-256 digests differ. */
  lemma TamperedIff(original: Option<Bytes>, upload: Option<Bytes>, sha: Bytes -> Digest)
    ensures IsQrTampered(original, upload, sha)
            <==> original.None? || upload.None? || sha(original.value) != sha(upload.value)
  {
    if original.Some? && upload.Some? {
      HexDigestInjective(sha(original.value), sha(upload.value));
    }
  }

  /** A `/predict` answer: an error object, a bare prediction, or a URL with its prediction. */
  datatype Reply = Error(message: string) | Verdict(prediction: string) | UrlVerdict(url: string, prediction: string)
  {
    function Status(): nat
    {
      if Error? then 400 else 200
    }
  }

  /** `predict` of front/model.py, as a function of what the collaborators answer: the reply
      and the collaborator calls made. `original` is the reference image file, `None` when it
      cannot be read; a classifier is only called when one is loaded. */
  function Predict(original: Option<Bytes>, upload: Option<Bytes>, sha: Bytes -> Digest,
                   decode: Bytes -> DecodeResult, resolve: string -> Option<string>,
                   classifier: Option<UrlFeatures -> int>): (r: (Reply, seq<Stage>))
    ensures r.1 == [] <==> upload.None?
    ensures upload.Some? ==> |r.1| >= 2 && r.1[..2] == [HashReference, HashUpload]
  {
    if upload.None? then (Error(NoImageMessage), [])
    else
      var image := upload.value;
      if IsQrTampered(original, Some(image), sha) then (Verdict(TamperedLabel), [HashReference, HashUpload])
      else
        var url := ReadQrCode(decode(image));
        if !Truthy(url) then (Error(NoQrMessage), [HashReference, HashUpload, DecodeQr])
        else if url.value == ExpectedHospitalUrl then (UrlVerdict(url.value, RealLabel), [HashReference, HashUpload, DecodeQr])
        else if IsShortenedUrl(url.value) && !Truthy(resolve(url.value)) then
          (Error(UnresolvedMessage), [HashReference, HashUpload, DecodeQr, ResolveUrl])
        else
          var judged := if IsShortenedUrl(url.value) then resolve(url.value).value else url.value;
          (UrlVerdict(judged, PredictUrl(classifier, judged)), [HashReference, HashUpload, DecodeQr] + JudgeCalls(url.value, classifier))
  }

  /** The calls made while judging a URL that is not the expected one: the resolver for a
      shortened URL, then the classifier when one is loaded. */
  function JudgeCalls(url: string, classifier: Option<UrlFeatures -> int>): (calls: seq<Stage>)
    ensures InPipelineOrder(calls)
    ensures forall s :: s in calls ==> Rank(s) >= Rank(ResolveUrl)
    ensures ResolveUrl in calls <==> IsShortenedUrl(url)
    ensures Classify in calls <==> classifier.Some?
    ensures Classify in calls ==> calls[|calls| - 1] == Classify
  {
    (if IsShortenedUrl(url) then [ResolveUrl] else []) + (if classifier.Some? then [Classify] else [])
  }

  /** Every collaborator is called at most once per request, in pipeline order: both
      digests first, then the decoder, the resolver and the classifier. */
  lemma CallsInPipelineOrder(original: Option<Bytes>, upload: Option<Bytes>, sha: Bytes -> Digest,
                             decode: Bytes -> DecodeResult, resolve: string -> Option<string>,
                             classifier: Option<UrlFeatures -> int>)
    ensures InPipelineOrder(Predict(original, upload, sha, decode, resolve, classifier).1)
  {
    var calls := Predict(original, upload, sha, decode, resolve, classifier).1;
    if upload.Some? && !IsQrTampered(original, upload, sha) {
      var url := ReadQrCode(decode(upload.value));
      if Truthy(url) && url.value != ExpectedHospitalUrl && !(IsShortenedUrl(url.value) && !Truthy(resolve(url.value))) {
        JudgedTraceInOrder(calls, url.value, classifier);
      }
    }
  }

  lemma JudgedTraceInOrder(calls: seq<Stage>, url: string, classifier: Option<UrlFeatures -> int>)
    requires calls == [HashReference, HashUpload, DecodeQr] + JudgeCalls(url, classifier)
    ensures InPipelineOrder(calls)
  {
    OrderedConcat([HashReference, HashUpload, DecodeQr], JudgeCalls(url, classifier));
  }

  /** A tampered upload is answered 200 with the tampered-certificate verdict after hashing
      alone: nothing is decoded, resolved or classified. */
  lemma TamperedShortCircuits(original: Option<Bytes>, image: Bytes, sha: Bytes -> Digest,
                              decode: Bytes -> DecodeResult, resolve: string -> Option<string>,
                              classifier: Option<UrlFeatures -> int>)
    requires original.None? || sha(original.value) != sha(image)
    ensures var (reply, calls) := Predict(original, Some(image), sha, decode, resolve, classifier);
            reply == Verdict(TamperedLabel) && reply.Status() == 200 && calls == [HashReference, HashUpload]
  {
    TamperedIff(original, Some(image), sha);
  }

  /** An upload identical to the reference image reaches the decoder. */
  lemma ReferenceImageIsDecoded(original: Bytes, sha: Bytes -> Digest,
                                decode: Bytes -> DecodeResult, resolve: string -> Option<string>,
                                classifier: Option<UrlFeatures -> int>)
    ensures var (reply, calls) := Predict(Some(original), Some(original), sha, decode, resolve, classifier);
            reply != Verdict(TamperedLabel) && |calls| >= 3 && calls[..3] == [HashReference, HashUpload, DecodeQr]
  {
    TamperedIff(Some(original), Some(original), sha);
  }

  /** Without a payload, or with an empty first payload, the answer is 400 "No QR code
      detected" and nothing is resolved or classified. */
  lemma NoQrCodeShortCircuits(original: Option<Bytes>, image: Bytes, sha: Bytes -> Digest,
                              decode: Bytes -> DecodeResult, resolve: string -> Option<string>,
                              classifier: Option<UrlFeatures -> int>)
    requires !IsQrTampered(original, Some(image), sha)
    requires decode(image).Unreadable? || decode(image).items == [] || decode(image).items[0] == ""
    ensures Predict(original, Some(image), sha, decode, resolve, classifier)
            == (Error(NoQrMessage), [HashReference, HashUpload, DecodeQr])
  {
  }

  /** The expected hospital URL is answered "Real Hospital URL" before the shortener test:
      neither the resolver nor the classifier is called, whatever the classifier would say. */
  lemma ExpectedUrlFastPath(original: Option<Bytes>, image: Bytes, sha: Bytes -> Digest,
                            decode: Bytes -> DecodeResult, resolve: string -> Option<string>,
                            classifier: Option<UrlFeatures -> int>)
    requires !IsQrTampered(original, Some(image), sha)
    requires ReadQrCode(decode(image)) == Some(ExpectedHospitalUrl)
    ensures Predict(original, Some(image), sha, decode, resolve, classifier)
            == (UrlVerdict(ExpectedHospitalUrl, RealLabel), [HashReference, HashUpload, DecodeQr])
  {
  }

  /** A shortened URL whose resolution gives nothing is answered 400 and never classified. */
  lemma ResolutionFailureRejects(original: Option<Bytes>, image: Bytes, sha: Bytes -> Digest,
                                 decode: Bytes -> DecodeResult, resolve: string -> Option<string>,
                                 classifier: Option<UrlFeatures -> int>, url: string)
    requires !IsQrTampered(original, Some(image), sha)
    requires ReadQrCode(decode(image)) == Some(url) && url != "" && url != ExpectedHospitalUrl
    requires IsShortenedUrl(url) && !Truthy(resolve(url))
    ensures var (reply, calls) := Predict(original, Some(image), sha, decode, resolve, classifier);
            reply == Error(UnresolvedMessage) && reply.Status() == 400
            && calls == [HashReference, HashUpload, DecodeQr, ResolveUrl] && Classify !in calls
  {
  }

  /** The resolver is called exactly when an untampered upload yields a non-empty URL that
      is not the expected one and is shortened. */
  lemma ResolvesOnlyShortened(original: Option<Bytes>, image: Bytes, sha: Bytes -> Digest,
                              decode: Bytes -> DecodeResult, resolve: string -> Option<string>,
                              classifier: Option<UrlFeatures -> int>)
    ensures var (reply, calls) := Predict(original, Some(image), sha, decode, resolve, classifier);
            ResolveUrl in calls <==>
              (!IsQrTampered(original, Some(image), sha) && Truthy(ReadQrCode(decode(image)))
               && ReadQrCode(decode(image)).value != ExpectedHospitalUrl
               && IsShortenedUrl(ReadQrCode(decode(image)).value))
  {
  }

  /** Every URL reply reports the URL that was judged, and its label is the classifier's
      verdict on that URL unless it is the expected URL; the classifier is called only when
      one is loaded, and last. */
  lemma UrlReplyIsJudgedUrl(original: Option<Bytes>, image: Bytes, sha: Bytes -> Digest,
                            decode: Bytes -> DecodeResult, resolve: string -> Option<string>,
                            classifier: Option<UrlFeatures -> int>)
    ensures var (reply, calls) := Predict(original, Some(image), sha, decode, resolve, classifier);
            var url := ReadQrCode(decode(image));
            (reply.UrlVerdict? ==>
               reply.Status() == 200 && url.Some?
               && (url.value == ExpectedHospitalUrl ==> reply == UrlVerdict(url.value, RealLabel))
               && (url.value != ExpectedHospitalUrl ==>
                     reply.url == (if IsShortenedUrl(url.value) then resolve(url.value).value else url.value)
                     && reply.prediction == PredictUrl(classifier, reply.url)))
            && (Classify in calls ==> classifier.Some? && calls[|calls| - 1] == Classify)
  {
  }

  /** A shortened URL that resolves is reported under its redirect target, with the
      classifier's label for the target, after all four collaborators were called. */
  lemma ShortenedUrlJudgedByTarget(original: Bytes, sha: Bytes -> Digest, decode: Bytes -> DecodeResult,
                                   resolve: string -> Option<string>, classify: UrlFeatures -> int,
                                   url: string, target: string)
    requires ReadQrCode(decode(original)) == Some(url) && url != "" && url != ExpectedHospitalUrl
    requires IsShortenedUrl(url) && resolve(url) == Some(target) && target != ""
    ensures Predict(Some(original), Some(original), sha, decode, resolve, Some(classify))
            == (UrlVerdict(target, if classify(ExtractUrlFeatures(target)) == 1 then RealLabel else FakeLabel),
                [HashReference, HashUpload, DecodeQr, ResolveUrl, Classify])
  {
    TamperedIff(Some(original), Some(original), sha);
    assert JudgeCalls(url, Some(classify)) == [ResolveUrl, Classify];
    assert [HashReference, HashUpload, DecodeQr] + [ResolveUrl, Classify] == [HashReference, HashUpload, DecodeQr, ResolveUrl, Classify];
  }
}
