/** `detect_license_plate_region`: the vehicles the detector finds (COCO classes car,
    bus and truck, confidence above 0.5) are cropped to their lower part and returned in
    detection order; whenever nothing usable comes out, the whole image is used. */
module Regions {
  import opened Wrappers

  /** COCO class ids of car, bus and truck; the list is only tested for membership. */
  const VehicleClasses: set<int> := {2, 5, 7}
  const MinVehicleConfidence: real := 0.5

  /** One detector row: its class id, confidence and (opaque) bounding box. */
  datatype Detection<Box> = Detection(classId: int, confidence: real, box: Box)

  /** The object detector: None when it could not be loaded at start-up; once loaded,
      a call yields the detections of an image, or None when inference raises. */
  type Detector<!Img, Box> = Option<Img -> Option<seq<Detection<Box>>>>

  /** Cropping an image to the lower 40% of a detection's box; None when it raises. */
  type Cropper<!Img, !Box> = (Img, Detection<Box>) -> Option<Img>

  predicate IsVehicle<Box>(d: Detection<Box>) {
    d.classId in VehicleClasses && d.confidence > MinVehicleConfidence
  }

  /** The qualifying detections, in detection order. */
  function Vehicles<Box>(ds: seq<Detection<Box>>): (vs: seq<Detection<Box>>)
    ensures |vs| <= |ds|
    ensures forall k :: 0 <= k < |vs| ==> IsVehicle(vs[k])
  {
    if ds == [] then []
    else if IsVehicle(ds[0]) then [ds[0]] + Vehicles(ds[1..])
    else Vehicles(ds[1..])
  }

  /** Crops every qualifying detection; None as soon as one crop raises. */
  function CropAll<Img, Box>(image: Img, vs: seq<Detection<Box>>, crop: Cropper<Img, Box>)
    : (regions: Option<seq<Img>>)
    ensures regions.None? <==> exists k :: 0 <= k < |vs| && crop(image, vs[k]).None?
    ensures regions.Some? ==>
              && |regions.value| == |vs|
              && forall k :: 0 <= k < |vs| ==> Some(regions.value[k]) == crop(image, vs[k])
  {
    if vs == [] then Some([])
    else
      match crop(image, vs[0])
      case None => None
      case Some(region) =>
        match CropAll(image, vs[1..], crop)
        case None => None
        case Some(rest) => Some([region] + rest)
  }

  /** The regions searched for a plate. */
  function SelectRegions<Img, Box>(image: Img, model: Detector<Img, Box>, crop: Cropper<Img, Box>)
    : (regions: seq<Img>)
    ensures |regions| >= 1
  {
    if model.None? then [image]
    else
      var detections := model.value(image);
      if detections.None? then [image]
      else
        var cropped := CropAll(image, Vehicles(detections.value), crop);
        if cropped.None? || |cropped.value| == 0 then [image] else cropped.value
  }

  /** The function body: the loop at backend/app.py:66-75 appends one region per qualifying
      detection; an exception anywhere in the `try` falls back to the whole image. */
  method DetectLicensePlateRegion<Img, Box>(image: Img, model: Detector<Img, Box>, crop: Cropper<Img, Box>)
    returns (licensePlateRegions: seq<Img>)
    ensures licensePlateRegions == SelectRegions(image, model, crop)
    ensures |licensePlateRegions| >= 1
  {
    if model.None? {
      return [image];
    }
    var results := model.value(image);
    if results.None? {
      return [image];
    }
    var detections := results.value;
    licensePlateRegions := [];
    for i := 0 to |detections|
      invariant CropAll(image, Vehicles(detections[..i]), crop) == Some(licensePlateRegions)
    {
      var detection := detections[i];
      assert detections[..i + 1] == detections[..i] + [detection];
      CropStep(image, detections[..i], detection, crop);
      if IsVehicle(detection) {
        var lowerRegion := crop(image, detection);
        if lowerRegion.None? {
          // the exception handler
          CropFailurePersists(image, detections, i + 1, crop);
          return [image];
        }
        licensePlateRegions := licensePlateRegions + [lowerRegion.value];
      }
    }
    assert detections[..|detections|] == detections;
    if |licensePlateRegions| == 0 {
      licensePlateRegions := [image];
    }
  }

  /** Qualifying detections keep their order: the filter distributes over concatenation. */
  lemma {:induction false} VehiclesAppend<Box>(a: seq<Detection<Box>>, b: seq<Detection<Box>>)
    ensures Vehicles(a + b) == Vehicles(a) + Vehicles(b)
  {
    if a != [] {
      VehiclesAppend(a[1..], b);
      assert (a + b)[1..] == a[1..] + b;
      assert (a + b)[0] == a[0];
    } else {
      assert a + b == b;
    }
  }

  /** A single detection is selected exactly when it qualifies. */
  lemma VehiclesSingle<Box>(d: Detection<Box>)
    ensures Vehicles([d]) == if IsVehicle(d) then [d] else []
  {
    assert [d][1..] == [];
  }

  /** The selected detections are exactly the qualifying ones. */
  lemma {:induction false} VehiclesMembers<Box>(ds: seq<Detection<Box>>, d: Detection<Box>)
    ensures d in Vehicles(ds) <==> d in ds && IsVehicle(d)
  {
    if ds != [] {
      VehiclesMembers(ds[1..], d);
      assert ds == [ds[0]] + ds[1..];
    }
  }

  /** One more detection: skipped when it does not qualify, otherwise its crop is
      appended, and a failing crop fails the whole selection. */
  lemma CropStep<Img, Box>(image: Img, p: seq<Detection<Box>>, d: Detection<Box>, crop: Cropper<Img, Box>)
    ensures var before := CropAll(image, Vehicles(p), crop);
            CropAll(image, Vehicles(p + [d]), crop) ==
              if !IsVehicle(d) then before
              else if before.None? || crop(image, d).None? then None
              else Some(before.value + [crop(image, d).value])
  {
    VehiclesAppend(p, [d]);
    VehiclesSingle(d);
    CropAllAppend(image, Vehicles(p), Vehicles([d]), crop);
    if IsVehicle(d) {
      assert [d][1..] == [];
      if crop(image, d).Some? {
        assert [crop(image, d).value] + [] == [crop(image, d).value];
      }
    } else {
      assert Vehicles(p) + [] == Vehicles(p);
    }
  }

  /** Once a crop has failed, no later detection can rescue the selection. */
  lemma CropFailurePersists<Img, Box>(image: Img, ds: seq<Detection<Box>>, n: nat, crop: Cropper<Img, Box>)
    requires n <= |ds| && CropAll(image, Vehicles(ds[..n]), crop).None?
    ensures CropAll(image, Vehicles(ds), crop).None?
  {
    assert ds == ds[..n] + ds[n..];
    VehiclesAppend(ds[..n], ds[n..]);
    CropAllAppend(image, Vehicles(ds[..n]), Vehicles(ds[n..]), crop);
  }

  lemma {:induction false} CropAllAppend<Img, Box>(image: Img, a: seq<Detection<Box>>, b: seq<Detection<Box>>,
                                                  crop: Cropper<Img, Box>)
    ensures CropAll(image, a + b, crop) ==
              if CropAll(image, a, crop).None? || CropAll(image, b, crop).None? then None
              else Some(CropAll(image, a, crop).value + CropAll(image, b, crop).value)
  {
    if a != [] {
      CropAllAppend(image, a[1..], b, crop);
      assert (a + b)[1..] == a[1..] + b;
      assert (a + b)[0] == a[0];
      var first, restA, restB := crop(image, a[0]), CropAll(image, a[1..], crop), CropAll(image, b, crop);
      if first.Some? && restA.Some? && restB.Some? {
        assert [first.value] + (restA.value + restB.value) == ([first.value] + restA.value) + restB.value;
      }
    } else {
      assert a + b == b;
      if CropAll(image, b, crop).Some? {
        assert [] + CropAll(image, b, crop).value == CropAll(image, b, crop).value;
      }
    }
  }

  /** Each fallback yields exactly the whole image: no detector, an inference error,
      no qualifying vehicle, or a crop that raises. */
  lemma FallbackToWholeImage<Img, Box>(image: Img, model: Detector<Img, Box>, crop: Cropper<Img, Box>)
    requires
      || model.None?
      || model.value(image).None?
      || Vehicles(model.value(image).value) == []
      || exists k :: 0 <= k < |Vehicles(model.value(image).value)|
                     && crop(image, Vehicles(model.value(image).value)[k]).None?
    ensures SelectRegions(image, model, crop) == [image]
  {
  }

  /** Otherwise the regions are the crops of the qualifying detections, one each, in
      detection order. */
  lemma RegionsAreVehicleCrops<Img, Box>(image: Img, model: Detector<Img, Box>, crop: Cropper<Img, Box>)
    requires model.Some? && model.value(image).Some?
    requires Vehicles(model.value(image).value) != []
    requires forall d :: d in Vehicles(model.value(image).value) ==> crop(image, d).Some?
    ensures var vs := Vehicles(model.value(image).value);
            var regions := SelectRegions(image, model, crop);
            && |regions| == |vs|
            && forall k :: 0 <= k < |vs| ==> Some(regions[k]) == crop(image, vs[k])
  {
    var vs := Vehicles(model.value(image).value);
    assert forall k :: 0 <= k < |vs| ==> crop(image, vs[k]).Some? by {
      forall k | 0 <= k < |vs| ensures crop(image, vs[k]).Some? {
        assert vs[k] in vs;
      }
    }
  }
}
