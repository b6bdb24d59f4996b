/** What the two verification pipelines share: the collaborators they call (the oracles),
    and the record of which of them a request reached. */
module Stages {
  import opened Wrappers

  /** A collaborator call made while answering one request, in call order:
      hashing the reference image, hashing the uploaded file, decoding its QR code,
      following the redirects of a shortened URL, and asking the trained classifier. */
  datatype Stage = HashReference | HashUpload | DecodeQr | ResolveUrl | Classify

  /** The position of a stage in the pipeline. */
  function Rank(s: Stage): nat
  {
    match s
    case HashReference => 0
    case HashUpload => 1
    case DecodeQr => 2
    case ResolveUrl => 3
    case Classify => 4
  }

  /** Each collaborator is called at most once, and in pipeline order: of any two calls,
      the earlier belongs to the earlier stage. */
  predicate InPipelineOrder(calls: seq<Stage>)
  {
    forall i, j :: 0 <= i < j < |calls| ==> Rank(calls[i]) < Rank(calls[j])
  }

  /** Two traces in pipeline order, the first wholly below the second, make one. */
  lemma OrderedConcat(a: seq<Stage>, b: seq<Stage>)
    requires InPipelineOrder(a) && InPipelineOrder(b)
    requires forall x, y :: x in a && y in b ==> Rank(x) < Rank(y)
    ensures InPipelineOrder(a + b)
  {
    forall i, j | 0 <= i < j < |a + b| ensures Rank((a + b)[i]) < Rank((a + b)[j]) {
      if i < |a| && j >= |a| {
        assert (a + b)[i] in a && (a + b)[j] in b;
      } else if i >= |a| {
        assert (a + b)[i] == b[i - |a|] && (a + b)[j] == b[j - |a|];
      }
    }
  }

  /** What the QR decoder reports for an image: the payloads it found, in scan order,
      or that the image could not be read at all. */
  datatype DecodeResult = Unreadable | Payloads(items: seq<string>)

  /** Python truthiness of a value that is a string or `None`: present and non-empty. */
  predicate Truthy(s: Option<string>)
  {
    s.Some? && s.value != ""
  }
}
