/** The `/detect_plate` handler: validates the request, searches every selected region
    for plate text, and reports the most confident detection together with all of them. */
module PlateDetection {
  import opened Wrappers
  import opened DataUrl
  import opened Plates
  import opened Regions

  const NoImageMessage := "No image provided"
  const InvalidImageMessage := "Invalid image format"
  const NoPlateMessage := "No license plate detected"

  /** The handler's JSON replies. */
  datatype PlateResponse =
    | PlateFound(licensePlate: string, confidence: real, allDetections: seq<string>)
    | NoPlate(message: string)
    | BadRequest(error: string)
    | ServerError

  function StatusCode(r: PlateResponse): (code: int)
    ensures code == 200 <==> r.PlateFound? || r.NoPlate?
  {
    match r
    case PlateFound(_, _, _) => 200
    case NoPlate(_) => 200
    case BadRequest(_) => 400
    case ServerError => 500
  }

  /** The candidates of all regions, region after region. */
  function AllDetections<Img, Box>(regions: seq<Img>, readtext: Img -> Option<seq<Reading<Box>>>)
    : (all: seq<Candidate<Box>>)
  {
    if regions == [] then [] else PlatesOf(readtext(regions[0])) + AllDetections(regions[1..], readtext)
  }

  /** `[d['text'] for d in all_detections]`. */
  function Texts<Box>(ds: seq<Candidate<Box>>): (texts: seq<string>)
    ensures |texts| == |ds|
    ensures forall k :: 0 <= k < |ds| ==> texts[k] == ds[k].text
  {
    if ds == [] then [] else [ds[0].text] + Texts(ds[1..])
  }

  /** `max(ds, key=confidence)` scanning from index `i` with the best so far at `best`:
      a later candidate replaces the best only when strictly more confident. */
  function MaxFrom<Box>(ds: seq<Candidate<Box>>, i: nat, best: nat): (k: nat)
    requires best < i <= |ds|
    requires forall j :: 0 <= j < i ==> ds[j].confidence <= ds[best].confidence
    requires forall j :: 0 <= j < best ==> ds[j].confidence < ds[best].confidence
    ensures k < |ds|
    ensures forall j :: 0 <= j < |ds| ==> ds[j].confidence <= ds[k].confidence
    ensures forall j :: 0 <= j < k ==> ds[j].confidence < ds[k].confidence
    decreases |ds| - i
  {
    if i == |ds| then best
    else if ds[i].confidence > ds[best].confidence then MaxFrom(ds, i + 1, i)
    else MaxFrom(ds, i + 1, best)
  }

  /** The index Python's `max` picks: a most confident candidate, the earliest on ties. */
  function BestIndex<Box>(ds: seq<Candidate<Box>>): (k: nat)
    requires |ds| > 0
    ensures k < |ds|
    ensures forall j :: 0 <= j < |ds| ==> ds[j].confidence <= ds[k].confidence
    ensures forall j :: 0 <= j < k ==> ds[j].confidence < ds[k].confidence
  {
    MaxFrom(ds, 1, 0)
  }

  /** The two properties determine the index: no other one has them. */
  lemma BestIndexUnique<Box>(ds: seq<Candidate<Box>>, k: nat)
    requires k < |ds|
    requires forall j :: 0 <= j < |ds| ==> ds[j].confidence <= ds[k].confidence
    requires forall j :: 0 <= j < k ==> ds[j].confidence < ds[k].confidence
    ensures BestIndex(ds) == k
  {
  }

  /** The reply for a non-empty candidate list, or the "no plate" reply. */
  function Report<Box>(all: seq<Candidate<Box>>): (r: PlateResponse)
    ensures StatusCode(r) == 200
    ensures r.NoPlate? <==> all == []
  {
    if |all| > 0 then
      var best := all[BestIndex(all)];
      PlateFound(best.text, best.confidence, Texts(all))
    else NoPlate(NoPlateMessage)
  }

  /** The handler as a function of the request body and the foreign calls it makes. */
  function DetectPlateSpec<Img, Box, OcrBox>(body: Body, decode: string -> Option<Img>,
                                             model: Detector<Img, Box>, crop: Cropper<Img, Box>,
                                             readtext: Img -> Option<seq<Reading<OcrBox>>>)
    : (r: PlateResponse)
    ensures StatusCode(r) == 500 <==> body.None?
  {
    if body.None? then ServerError
    else if "image" !in body.value then BadRequest(NoImageMessage)
    else
      var image := Preprocess(body.value["image"], decode);
      if image.None? then BadRequest(InvalidImageMessage)
      else Report(AllDetections(SelectRegions(image.value, model, crop), readtext))
  }

  /** `detect_plate`, with the loop at backend/app.py:132-134 extending `all_detections`. */
  method DetectPlate<Img, Box, OcrBox>(body: Body, decode: string -> Option<Img>,
                                       model: Detector<Img, Box>, crop: Cropper<Img, Box>,
                                       readtext: Img -> Option<seq<Reading<OcrBox>>>)
    returns (response: PlateResponse)
    ensures response == DetectPlateSpec(body, decode, model, crop, readtext)
  {
    if body.None? {
      // `'image' in None` raises; the outer handler answers 500
      return ServerError;
    }
    var data := body.value;
    if "image" !in data {
      return BadRequest(NoImageMessage);
    }
    var image := Preprocess(data["image"], decode);
    if image.None? {
      return BadRequest(InvalidImageMessage);
    }
    var licensePlateRegions := DetectLicensePlateRegion(image.value, model, crop);
    var allDetections: seq<Candidate<OcrBox>> := [];
    for i := 0 to |licensePlateRegions|
      invariant allDetections == AllDetections(licensePlateRegions[..i], readtext)
    {
      var region := licensePlateRegions[i];
      var detections := ExtractLicensePlateText(readtext(region));
      AllDetectionsStep(licensePlateRegions, i, readtext);
      allDetections := allDetections + detections;
    }
    assert licensePlateRegions[..|licensePlateRegions|] == licensePlateRegions;
    if |allDetections| > 0 {
      var best := allDetections[BestIndex(allDetections)];
      response := PlateFound(best.text, best.confidence, Texts(allDetections));
    } else {
      response := NoPlate(NoPlateMessage);
    }
  }

  /** Aggregation keeps region order: the detections of a split region list are the
      detections of the first part followed by those of the second. */
  lemma {:induction false} AllDetectionsAppend<Img, Box>(a: seq<Img>, b: seq<Img>,
                                                         readtext: Img -> Option<seq<Reading<Box>>>)
    ensures AllDetections(a + b, readtext) == AllDetections(a, readtext) + AllDetections(b, readtext)
  {
    if a != [] {
      var first := PlatesOf(readtext(a[0]));
      calc {
        AllDetections(a + b, readtext);
        { assert (a + b)[0] == a[0] && (a + b)[1..] == a[1..] + b; }
        first + AllDetections(a[1..] + b, readtext);
        { AllDetectionsAppend(a[1..], b, readtext); }
        first + (AllDetections(a[1..], readtext) + AllDetections(b, readtext));
        (first + AllDetections(a[1..], readtext)) + AllDetections(b, readtext);
      }
    } else {
      assert a + b == b;
    }
  }

  /** One more region appends its own candidates. */
  lemma AllDetectionsStep<Img, Box>(regions: seq<Img>, i: nat, readtext: Img -> Option<seq<Reading<Box>>>)
    requires i < |regions|
    ensures AllDetections(regions[..i + 1], readtext)
            == AllDetections(regions[..i], readtext) + PlatesOf(readtext(regions[i]))
  {
    var region := regions[i];
    AllDetectionsAppend(regions[..i], [region], readtext);
    assert regions[..i + 1] == regions[..i] + [region];
    assert [region][1..] == [];
    assert PlatesOf(readtext(region)) + [] == PlatesOf(readtext(region));
  }

  /** Every aggregated detection passed the confidence and plate-shape filter. */
  lemma {:induction false} AllDetectionsArePlates<Img, Box>(regions: seq<Img>,
                                                            readtext: Img -> Option<seq<Reading<Box>>>)
    ensures forall k :: 0 <= k < |AllDetections(regions, readtext)| ==>
              IsPlateCandidate(AllDetections(regions, readtext)[k])
  {
    if regions != [] {
      AllDetectionsArePlates(regions[1..], readtext);
      var first, rest := PlatesOf(readtext(regions[0])), AllDetections(regions[1..], readtext);
      if readtext(regions[0]).Some? {
        PlatesArePlateCandidates(readtext(regions[0]).value);
      }
      forall k | 0 <= k < |first + rest| ensures IsPlateCandidate((first + rest)[k]) {
        if k < |first| {
          assert (first + rest)[k] == first[k];
        } else {
          assert (first + rest)[k] == rest[k - |first|];
        }
      }
    }
  }

  /** Validation order: a missing or unparsable body is a server error; a missing
      `image` key is rejected with 400 before the image is decoded or anything detected. */
  lemma MissingImageRejectedFirst<Img, Box, OcrBox>(body: Body, decode: string -> Option<Img>,
                                                    model: Detector<Img, Box>, crop: Cropper<Img, Box>,
                                                    readtext: Img -> Option<seq<Reading<OcrBox>>>)
    requires body.None? || "image" !in body.value
    ensures var r := DetectPlateSpec(body, decode, model, crop, readtext);
            && (body.None? ==> r == ServerError && StatusCode(r) == 500)
            && (body.Some? ==> r == BadRequest(NoImageMessage) && StatusCode(r) == 400)
  {
  }

  /** An image that cannot be decoded, or a payload that is not a string, is rejected
      with 400 "Invalid image format" before any detection. */
  lemma UndecodableRejected<Img, Box, OcrBox>(body: Body, decode: string -> Option<Img>,
                                              model: Detector<Img, Box>, crop: Cropper<Img, Box>,
                                              readtext: Img -> Option<seq<Reading<OcrBox>>>)
    requires body.Some? && "image" in body.value
    requires body.value["image"].JOther? || decode(StripDataUrlPrefix(body.value["image"].s)).None?
    ensures DetectPlateSpec(body, decode, model, crop, readtext) == BadRequest(InvalidImageMessage)
    ensures StatusCode(DetectPlateSpec(body, decode, model, crop, readtext)) == 400
  {
  }

  /** For a decodable image: with no detection the reply is "no plate"; otherwise it names
      a detection at least as confident as every other one, the earliest among equals, and
      lists every detection's text in region order. */
  lemma ReportsBestDetection<Img, Box, OcrBox>(body: Body, decode: string -> Option<Img>,
                                               model: Detector<Img, Box>, crop: Cropper<Img, Box>,
                                               readtext: Img -> Option<seq<Reading<OcrBox>>>)
    requires body.Some? && "image" in body.value
    requires Preprocess(body.value["image"], decode).Some?
    ensures var image := Preprocess(body.value["image"], decode).value;
            var all := AllDetections(SelectRegions(image, model, crop), readtext);
            var r := DetectPlateSpec(body, decode, model, crop, readtext);
            && (all == [] <==> r == NoPlate(NoPlateMessage))
            && (all != [] ==>
                  && r.PlateFound?
                  && r.allDetections == Texts(all)
                  && LooksLikePlate(r.licensePlate) && r.confidence > MinConfidence
                  && (forall j :: 0 <= j < |all| ==> all[j].confidence <= r.confidence)
                  && exists k :: 0 <= k < |all|
                                 && all[k].text == r.licensePlate && all[k].confidence == r.confidence
                                 && forall j :: 0 <= j < k ==> all[j].confidence < r.confidence)
  {
    var image := Preprocess(body.value["image"], decode).value;
    var all := AllDetections(SelectRegions(image, model, crop), readtext);
    AllDetectionsArePlates(SelectRegions(image, model, crop), readtext);
    if all != [] {
      var k := BestIndex(all);
      assert IsPlateCandidate(all[k]);
      assert all[k].text == DetectPlateSpec(body, decode, model, crop, readtext).licensePlate;
    }
  }
}
