# MediVerify certificate verification, modelled in Dafny

MediVerify decides whether the QR code on a hospital certificate is genuine. An uploaded
image goes through a fixed order of checks:

1. Its SHA-256 digest is compared with a reference (tamper detection).
2. Its QR code is decoded into a URL.
3. A URL on a known shortener is followed to its destination.
4. A trained classifier judges features computed from the URL.

The repository has two backends with two variants of this pipeline:

- `front/server.py` keeps the reference digest in the file `original_qr_hash.txt`, written
  by `/generate-hash`. It answers `/predict` with the classifier's label, the URL it
  judged and `tampered: false`.
- `front/model.py` compares against a fixed reference image and fails closed when a
  digest cannot be computed. It accepts the expected hospital URL without asking the
  classifier, and refuses a shortened URL that cannot be resolved.

The project models both variants. The collaborators are parameters of the model:

- the SHA-256 function (`Bytes -> Digest`);
- the QR decoder (`Bytes -> DecodeResult`, the payloads in scan order or an unreadable image);
- the redirect resolver (`string -> Option<string>`);
- the trained classifier.

Each request is modelled together with the list of collaborator calls it made
(`Stages.Stage`): hashing the reference image (model.py only), hashing the upload,
decoding, resolving and classifying. This is what lets the proofs say which stages a request never reached.

Modules:

- `Text`: Python's `sub in s`, `s.count(c)`, `s.lower()` (ASCII) and `s.strip()`.
- `Urls`: a simplified `urllib.parse.urlparse` that yields the netloc and the path.
- `Digests`: the 32-byte digest and `hexdigest()`.
- `Shorteners`: `SHORTENED_DOMAINS` and `is_shortened_url`. Both files define the same list
  and the same rule (`front/server.py:27-33`, `front/model.py:27-32`), so one definition
  serves both.
- `Server`: front/server.py.
  - The reference digest file is a class, `ReferenceStore`.
  - `predict` is an imperative method proved equal to the function `PredictOutcome`.
- `ModelApp`: front/model.py, written as functions over the collaborators' answers.
- `Variants`: where the two pipelines agree and where they differ.

Two behaviours of the code are worth stating plainly. The model follows the code in both.

- **Shortener matching.** The code tests whether a listed name is a substring of the
  netloc; it does not match at domain boundaries. So "https://notbit.ly.com" and
  "https://bat.com/page" (which contains "t.co") count as shortened, as
  `Shorteners.LookalikeHostIsShortened` and `Shorteners.AccidentalMatchIsShortened` show.
- **Redirect bounds.** The code sets no timeout and no bound on redirects when it follows
  a shortened URL, so the resolver is an unconstrained parameter.

The lemmas in `Variants` compare the two pipelines on the same image. They take one QR
decoder for both, so they assume that the PIL-based loader of `front/server.py:46-47` and
the cv2-based loader of `front/model.py:76-81` yield the same payloads for an image.

## Model

| member | source | states |
|---|---|---|
| Shorteners.IsShortenedUrl | front/server.py:27-33 | a URL is shortened exactly when some entry of the five-element shortener list occurs as a contiguous substring of its netloc |
| Shorteners.NoDotNotShortened | front/server.py:27-33 | a netloc without '.' is never shortened, since every listed shortener contains one |
| Shorteners.ShortenedWhenHostContains | front/server.py:30-33 | for "scheme://host…" with an ASCII-letter scheme, any occurrence of a listed shortener anywhere in the host makes the URL shortened |
| Shorteners.ShortenerHostIsShortened | front/server.py:27-33 | "https://bit.ly/abc" is shortened |
| Shorteners.LookalikeHostIsShortened | front/server.py:27-33 | "https://notbit.ly.com" is shortened too: no domain boundary is checked |
| Shorteners.AccidentalMatchIsShortened | front/server.py:27-33 | "https://bat.com/page" is shortened because its netloc contains "t.co" |
| Shorteners.BareHostNotShortened | front/server.py:30-33 | "bit.ly/abc", having no scheme and no "//", has an empty netloc and is not shortened |
| Text.Contains | front/server.py:33 | `sub in s` can hold only when `sub` is no longer than `s`, and always holds for the empty needle |
| Text.ContainsIff | front/server.py:33 | Python's `sub in s` holds exactly when some position of `s` starts an occurrence of `sub` |
| Text.ContainsAnyIff | front/server.py:33 | `any(sub in s for sub in subs)` holds exactly when one of the needles is contained |
| Text.ContainsAnyNeedsChar | front/server.py:33 | when every needle holds a character the string lacks, no needle is contained |
| Text.Count | front/server.py:73-75 | `s.count(c)` is at most the length of `s` |
| Text.CountIsMultiplicity | front/server.py:73-75 | `s.count(c)` is the number of occurrences of `c` in `s` (its multiplicity) |
| Text.CountThreeBound | front/server.py:73-75 | the counts of three different characters add up to at most the string's length |
| Text.Lower | front/model.py:51-53 | lower-casing keeps the length, maps each character by itself, and leaves no ASCII upper-case letter |
| Text.Strip | front/server.py:94 | `strip()` never lengthens a string |
| Text.StripDecomposes | front/server.py:94 | `strip()` removes only whitespace: its result is the slice of `s` after the leading whitespace, and every character outside it is whitespace |
| Text.StripTrimmed | front/server.py:94 | the result of `strip()` neither starts nor ends with whitespace |
| Text.StripIdentity | front/server.py:94 | `strip()` returns unchanged a string that neither starts nor ends with whitespace |
| Urls.Netloc | front/server.py:31-32 | the netloc is no longer than the URL and holds no '/', '?' or '#' |
| Urls.Path | front/model.py:44-46 | the path is no longer than the URL and holds no '?' or '#' |
| Urls.FirstIndexFrom | front/server.py:31-32 | the end of a URL component is the first stop character at or after its start, or the end of the URL |
| Urls.SplitReassembles | front/server.py:31-32 | the text before the netloc, the netloc, the path and the query/fragment tail reassemble the URL |
| Urls.SplitBoundaries | front/server.py:31-32 | the netloc holds no '/', '?', '#' and is ended by one; a non-empty netloc follows "//"; the path holds no '?', '#' and is ended by one or by the end |
| Urls.NetlocPathWithinUrl | front/model.py:44-46 | netloc and path together are no longer than the URL |
| Urls.NetlocCountBound | front/model.py:50 | the netloc never holds more of any character than the URL |
| Urls.NetlocOfAuthority | front/server.py:31-32 | the netloc of "scheme://host/…" is the host |
| Urls.PathOfAuthority | front/model.py:44-46 | the path of "scheme://host/path" is "/path" when it holds no '?' or '#' |
| Urls.NoNetlocWithoutAuthority | front/server.py:31-32 | a URL with no ':' and no leading "//" has an empty netloc |
| Urls.QueryIgnored | front/model.py:44-46 | appending a query or fragment to a URL that has none changes neither its netloc nor its path |
| Digests.HexDigest | front/server.py:81-84 | `hexdigest()` has two lower-case hexadecimal characters per byte |
| Digests.HexDigestInjective | front/server.py:81-84 | two hex digests are equal exactly when the digests are equal |
| Digests.StripHexDigest | front/server.py:93-96 | `strip()` leaves a stored hex digest unchanged |
| Server.ExtractUrlFromQr | front/server.py:45-53 | the URL is present exactly when the decoder found a payload, and it is the first payload in scan order |
| Server.LexicalFeatures.Vector | front/server.py:70-77 | the classifier receives exactly six non-negative numbers |
| Server.ExtractFeatures | front/server.py:64-78 | the netloc length never exceeds the URL length, and the shortener flag is 0 or 1 |
| Server.FeatureBounds | front/server.py:64-78 | features are URL length, netloc length (no larger), and '/', '.', '-' counts (together no larger); the last is 1 exactly for shortened URLs, else 0 |
| Server.FeaturesCountCharacters | front/server.py:73-75 | the three counts are the multiplicities of '/', '.' and '-' in the URL |
| Server.TamperVerdict | front/server.py:87-96 | `None` exactly when no reference is stored; an upload whose hex digest equals the stripped reference is not tampered |
| Server.EnrolThenVerify | front/server.py:93-96 | checking an image against its own stored hex digest gives "not tampered" |
| Server.TamperedIffDigestDiffers | front/server.py:87-96 | against an enrolled image's digest, an upload is tampered exactly when the SHA-256 digests differ |
| Server.ReferenceStore.constructor | front/server.py:90-91 | before any enrolment there is no reference |
| Server.ReferenceStore.GenerateQrHash | front/server.py:162-177 | without an image nothing changes; with one, its hex digest replaces the stored reference and is returned |
| Server.ReferenceStore.IsQrTampered | front/server.py:87-96 | `None` exactly when no reference is stored, otherwise whether the upload's hex digest differs from the stripped stored text |
| Server.EnrolAndCheck | front/server.py:171-175 | enrolling an image and then checking the same image reports it untampered |
| Server.PredictOutcome | front/server.py:102-144 | a request makes no collaborator call exactly when it has no image, and otherwise starts by hashing the upload |
| Server.JudgeCalls | front/server.py:125-141 | judging a URL calls the resolver at most once and then the classifier, last, in pipeline order |
| Server.CallsInPipelineOrder | front/server.py:102-144 | every request calls each collaborator at most once, in pipeline order: hash, decode, resolve, classify |
| Server.JudgedTraceInOrder | front/server.py:120-141 | hashing and decoding followed by the judging calls of a URL are in pipeline order |
| Server.Predict | front/server.py:102-144 | the step-by-step handler gives the reply and the call trace of `PredictOutcome`, the stage-by-stage decision |
| Server.TamperStageShortCircuits | front/server.py:113-118 | a missing reference or a digest mismatch ends in a 400 error with the matching message after hashing alone |
| Server.EnrolledImageIsDecoded | front/server.py:113-121 | an upload matching the enrolled digest always passes the tamper stage and reaches the decoder |
| Server.NoUrlShortCircuits | front/server.py:120-123 | no payload or an empty first payload gives a 400 error; nothing is resolved or classified |
| Server.ResolvesOnlyShortened | front/server.py:125-131 | the resolver is called exactly when an untampered upload yields a non-empty shortened URL |
| Server.SuccessReply | front/server.py:133-141 | a success is 200 with `tampered` false; it names the redirect target or else the decoded URL, with the classifier's label for that URL's features, classified last |
| Server.DecodedUrlIsClassified | front/server.py:133-141 | every non-empty decoded URL that passes the tamper check is classified and answered with a prediction |
| Server.ResolutionFailureClassifiesOriginal | front/server.py:125-141 | when resolving a shortened URL gives nothing, the decoded URL itself is classified and reported |
| ModelApp.Flag | front/model.py:51-53 | `int(b)` is 0 or 1, and 1 exactly when `b` holds |
| ModelApp.ExtractUrlFeatures | front/model.py:42-58 | the dot count never exceeds the domain length, and each keyword flag is 0 or 1 |
| ModelApp.UrlFeatureBounds | front/model.py:42-58 | dot count ≤ domain length and ≤ the URL's own dot count; domain plus path length ≤ URL length; each keyword flag is 0 or 1, 1 exactly when its keyword occurs in the lower-cased netloc |
| ModelApp.KeywordFlagsIgnorePath | front/model.py:48-55 | URLs with the same netloc get the same keyword flags and dot count, whatever their paths |
| ModelApp.FeaturesIgnoreQuery | front/model.py:42-58 | a query string or fragment changes no feature |
| ModelApp.PredictUrl | front/model.py:60-71 | "Model not loaded" exactly without a classifier; "Real Hospital URL" exactly when the classifier answers 1; "Fake Hospital URL" exactly for any other answer |
| ModelApp.PredictUrlIgnoresQuery | front/model.py:60-71 | adding a query string or fragment never changes the label |
| ModelApp.ReadQrCode | front/model.py:73-90 | the URL is present exactly when the image was readable and held a payload, and it is the first payload |
| ModelApp.GetImageHash | front/model.py:92-101 | a hash exists exactly when the file could be read, and it is 64 characters long |
| ModelApp.IsQrTampered | front/model.py:103-113 | an unreadable reference or upload counts as tampered; an upload identical to the reference is tampered exactly when it cannot be read |
| ModelApp.TamperedIff | front/model.py:103-113 | tampered exactly when a file cannot be read or the two SHA-256 digests differ (fail-closed) |
| ModelApp.Predict | front/model.py:115-149 | a request makes no collaborator call exactly when it has no image, and otherwise starts by hashing the reference image and then the upload |
| ModelApp.JudgeCalls | front/model.py:139-149 | judging a URL calls the resolver exactly for a shortened URL and the classifier exactly when one is loaded, and then last, in pipeline order |
| ModelApp.CallsInPipelineOrder | front/model.py:115-149 | every request calls each collaborator at most once, in pipeline order: both hashes, decode, resolve, classify |
| ModelApp.JudgedTraceInOrder | front/model.py:125-149 | both hashes and decoding followed by the judging calls of a URL are in pipeline order |
| ModelApp.TamperedShortCircuits | front/model.py:125-127 | a missing reference image or a digest mismatch gives 200 "Fake Certificate (Tampered QR Image)" after hashing both images alone |
| ModelApp.ReferenceImageIsDecoded | front/model.py:125-130 | an upload identical to the reference image reaches the decoder |
| ModelApp.NoQrCodeShortCircuits | front/model.py:129-133 | an unreadable image, no payload or an empty payload gives 400 "No QR code detected"; nothing is resolved or classified |
| ModelApp.ExpectedUrlFastPath | front/model.py:135-137 | the expected hospital URL gets "Real Hospital URL" before the shortener test; neither resolver nor classifier is called |
| ModelApp.ResolutionFailureRejects | front/model.py:139-143 | a shortened URL whose resolution gives nothing gets 400 "Could not resolve shortened URL" and is never classified |
| ModelApp.ResolvesOnlyShortened | front/model.py:139-144 | the resolver is called exactly when an untampered upload yields a non-empty URL that is not the expected one and is shortened |
| ModelApp.UrlReplyIsJudgedUrl | front/model.py:135-149 | a URL reply is 200; it names the judged URL (redirect target for a shortened URL) with `predict_url`'s label, or is the expected URL marked real; the classifier is called only when loaded, last |
| ModelApp.ShortenedUrlJudgedByTarget | front/model.py:139-149 | a shortened URL that resolves is reported under its redirect target with the classifier's label for the target, after all four collaborators |
| Variants.TamperVerdictsAgree | front/model.py:103-113 | with the server's stored digest taken from the reference image, both tamper checks flag exactly the same uploads |
| Variants.MissingReferenceDiffers | front/server.py:114-116 | without a reference, server.py answers 400 "Original QR hash not found" while model.py answers 200 tampered |
| Variants.ResolutionFailureDiffers | front/model.py:140-143 | when a shortened URL cannot be resolved, server.py classifies the decoded URL while model.py answers 400 without classifying |
| Variants.ExpectedUrlDiffers | front/model.py:136-137 | for the expected hospital URL, model.py answers "Real Hospital URL" without the classifier while server.py still classifies it |

## Left out

- HTTP and files: the Flask routes, JSON bodies, CORS, saving uploads to `uploads/` and app startup. A missing `image` field is an absent upload; replies are datatypes with a status code.
- SHA-256 (FIPS 180-4) is a parameter compared only by equality; only `hexdigest()` is modelled.
- QR decoding (pyzbar, PIL, cv2) is a parameter that returns the payloads as text or reports an unreadable image. Failing to decode a payload as UTF-8 is not modelled.
- Redirect following (`requests.get`) is a parameter returning an optional URL. Network errors are its `None` answer.
- The XGBoost model and its numpy/pandas wrapping are opaque functions from the features to an integer label. Server.Predict keeps the label as that integer, where the source sends `str(result[0])`. ModelApp takes the loaded model as an optional parameter.
- Server.Predict models the catch-all 400 handler (`front/server.py:143-144`) only for an image the decoder cannot read. The exception text after "Failed to process request: " is not modelled. Exceptions raised by hashing, resolution or the classifier are not modelled.
- ModelApp.Predict takes the reference image `original_qr.png` as a parameter: its bytes, or `None` when it cannot be read.
- Urls.Netloc and Urls.Path simplify `urlparse`. `;params` splitting is not modelled. Neither is the stripping of leading whitespace and control characters, nor the deletion of '\t', '\r' and '\n' anywhere in the URL (so `urlparse("https://bit.\nly/x").netloc` is "bit.ly" in Python but keeps the newline here), nor the `ValueError` on a malformed IPv6 netloc or on a netloc that NFKC normalisation changes into one holding '/', '?', '#', '@' or ':'.
- Text.Lower lower-cases ASCII letters only, not the rest of Unicode.
- Text.IsSpace covers ASCII and Latin-1 whitespace only, not the rest of Unicode.
- OCR (`extract_text_from_image`, `/extract_text`) and the `/` welcome route are not part of this model. The React frontend is not part of this model either.
- Debug printing is not modelled.
