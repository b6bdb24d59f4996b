/** How the two `/predict` pipelines, front/server.py and front/model.py, answer the same
    request. Both share one shortener rule; they agree on what counts as tampered when the
    server's stored digest is that of the reference image, and part ways on a missing
    reference, on the expected hospital URL and on a redirect that cannot be followed. */
module Variants {
  import opened Wrappers
  import opened Stages
  import opened Digests
  import opened Shorteners
  import Server
  import ModelApp

  /** With the server's stored digest taken from the reference image, both tamper checks
      flag exactly the same uploads. */
  lemma TamperVerdictsAgree(original: Bytes, upload: Bytes, sha: Bytes -> Digest)
    ensures Server.TamperVerdict(HexDigest(sha(upload)), Some(HexDigest(sha(original))))
            == Some(ModelApp.IsQrTampered(Some(original), Some(upload), sha))
  {
    Server.TamperedIffDigestDiffers(original, upload, sha);
    ModelApp.TamperedIff(Some(original), Some(upload), sha);
  }

  /** Without a reference the server refuses with a 400 error, while model.py fails closed
      and answers 200 with the tampered-certificate verdict. */
  lemma MissingReferenceDiffers(image: Bytes, sha: Bytes -> Digest, decode: Bytes -> DecodeResult,
                                resolve: string -> Option<string>, classify: seq<int> -> int,
                                classifier: Option<ModelApp.UrlFeatures -> int>)
    ensures Server.PredictOutcome(None, Some(image), sha, decode, resolve, classify).0
            == Server.Error(Server.NoReferenceMessage)
    ensures ModelApp.Predict(None, Some(image), sha, decode, resolve, classifier).0
            == ModelApp.Verdict(ModelApp.TamperedLabel)
    ensures Server.PredictOutcome(None, Some(image), sha, decode, resolve, classify).0.Status() == 400
    ensures ModelApp.Predict(None, Some(image), sha, decode, resolve, classifier).0.Status() == 200
  {
  }

  /** When a shortened URL cannot be resolved, the server classifies the decoded URL and
      answers 200, while model.py answers 400 without classifying. */
  lemma ResolutionFailureDiffers(original: Bytes, sha: Bytes -> Digest, decode: Bytes -> DecodeResult,
                                 resolve: string -> Option<string>, classify: seq<int> -> int,
                                 classifier: Option<ModelApp.UrlFeatures -> int>, url: string)
    requires decode(original).Payloads? && decode(original).items != [] && decode(original).items[0] == url
    requires url != "" && url != ModelApp.ExpectedHospitalUrl
    requires IsShortenedUrl(url) && !Truthy(resolve(url))
    ensures var (reply, calls) := Server.PredictOutcome(Some(HexDigest(sha(original))), Some(original), sha, decode, resolve, classify);
            reply == Server.Prediction(classify(Server.ExtractFeatures(url).Vector()), url, false)
            && Classify in calls
    ensures var (reply, calls) := ModelApp.Predict(Some(original), Some(original), sha, decode, resolve, classifier);
            reply == ModelApp.Error(ModelApp.UnresolvedMessage) && Classify !in calls
  {
    Server.EnrolThenVerify(original, sha);
    Server.ResolutionFailureClassifiesOriginal(Some(HexDigest(sha(original))), original, sha, decode, resolve, classify, url);
    ModelApp.TamperedIff(Some(original), Some(original), sha);
    ModelApp.ResolutionFailureRejects(Some(original), original, sha, decode, resolve, classifier, url);
  }

  /** For the expected hospital URL model.py answers without asking the classifier, while
      the server still classifies it. */
  lemma ExpectedUrlDiffers(original: Bytes, sha: Bytes -> Digest, decode: Bytes -> DecodeResult,
                           resolve: string -> Option<string>, classify: seq<int> -> int,
                           classifier: Option<ModelApp.UrlFeatures -> int>, url: string)
    requires url == ModelApp.ExpectedHospitalUrl
    requires decode(original).Payloads? && decode(original).items != [] && decode(original).items[0] == url
    ensures var (reply, calls) := Server.PredictOutcome(Some(HexDigest(sha(original))), Some(original), sha, decode, resolve, classify);
            reply.Prediction? && calls != [] && calls[|calls| - 1] == Classify
    ensures var (reply, calls) := ModelApp.Predict(Some(original), Some(original), sha, decode, resolve, classifier);
            reply == ModelApp.UrlVerdict(url, ModelApp.RealLabel) && Classify !in calls
  {
    EnrolledUrlIsClassified(original, sha, decode, resolve, classify);
    assert ModelApp.ReadQrCode(decode(original)) == Some(url);
    ReferenceUrlAnsweredDirectly(original, sha, decode, resolve, classifier, url);
  }

  /** model.py answers the expected URL on an untampered upload without classifying it. */
  lemma ReferenceUrlAnsweredDirectly(original: Bytes, sha: Bytes -> Digest, decode: Bytes -> DecodeResult,
                                     resolve: string -> Option<string>,
                                     classifier: Option<ModelApp.UrlFeatures -> int>, url: string)
    requires url == ModelApp.ExpectedHospitalUrl && ModelApp.ReadQrCode(decode(original)) == Some(url)
    ensures var (reply, calls) := ModelApp.Predict(Some(original), Some(original), sha, decode, resolve, classifier);
            reply == ModelApp.UrlVerdict(url, ModelApp.RealLabel) && Classify !in calls
  {
    ModelApp.TamperedIff(Some(original), Some(original), sha);
    ModelApp.ExpectedUrlFastPath(Some(original), original, sha, decode, resolve, classifier);
  }

  /** The server classifies whatever non-empty URL an enrolled image carries. */
  lemma EnrolledUrlIsClassified(original: Bytes, sha: Bytes -> Digest, decode: Bytes -> DecodeResult,
                                resolve: string -> Option<string>, classify: seq<int> -> int)
    requires decode(original).Payloads? && decode(original).items != [] && decode(original).items[0] != ""
    ensures var (reply, calls) := Server.PredictOutcome(Some(HexDigest(sha(original))), Some(original), sha, decode, resolve, classify);
            reply.Prediction? && calls != [] && calls[|calls| - 1] == Classify
  {
    Server.EnrolThenVerify(original, sha);
    Server.DecodedUrlIsClassified(Some(HexDigest(sha(original))), original, sha, decode, resolve, classify);
  }
}
