# NetraAI backend — decision logic of the Flask service

NetraAI is a voice-first assistant for visually impaired riders. Its Python backend
(`backend/app.py`) answers three kinds of request: `/detect_plate` finds a cab's licence
plate in a camera frame, `/chatbot` answers questions from a fixed rule table, and
`/speak` turns text into speech. This project models the deterministic logic around the
machine-learning and imaging calls:

- `DataUrl` — the data-URL prefix strip in `preprocess_image`. The payload
  `data:[<mediatype>][;base64],<data>` (section 3 of RFC 2397) is cut down with
  `split(',')[1]`.
- `Plates` — `extract_license_plate_text`. OCR readings above confidence 0.5 are
  upper-cased and stripped to `[A-Z0-9]`. A reading is kept when its cleaned text has
  4 to 12 characters. Kept readings stay in OCR order.
- `Regions` — `detect_license_plate_region`. Detections of class car, bus or truck
  (COCO 2, 5, 7) above confidence 0.5 are cropped in detection order. A missing
  detector, an exception or no qualifying vehicle falls back to `[image]`.
- `PlateDetection` — the `/detect_plate` handler. It validates the request (500, then
  400 "No image provided", then 400 "Invalid image format"). It concatenates the
  per-region candidates in region order. It reports the most confident one, the first
  among equals, as Python's `max` does.
- `Chatbot` — the `/chatbot` handler. The query is lower-cased and stripped. The reply
  of the first key in table order that occurs in the query wins; otherwise a fixed
  default reply is given. The normalised query is echoed.
- `StrOps` and `Wrappers` — the pieces of Python's `str` the handlers use, the
  optional value, and the JSON body.

The foreign calls are parameters of function type:
- `decode` stands for base64 decoding plus `cv2.imdecode`.
- `model` stands for the YOLOv5 detector. `None` means it failed to load; an inner
  `None` means inference raised.
- `crop` stands for the numpy crop to the lower part of a vehicle box. `None` means it
  raised.
- `readtext` stands for EasyOCR. `None` means it raised.

Each loop of the source is a method proved equal to a recursive specification function.
The properties are lemmas about those functions.

## Model

| member | source | states |
|---|---|---|
| StrOps.Lower | backend/app.py:161 | `lower()` keeps the length and maps each character through ASCII lower-casing; no capital remains |
| StrOps.Upper | backend/app.py:97 | `upper()` keeps the length and maps each character through ASCII upper-casing |
| StrOps.IsSpace | backend/app.py:161 | the whitespace set of Python's `str.isspace()` that `strip()` removes, by code point; no whitespace character is an ASCII letter or digit |
| StrOps.LeadingSpaces | backend/app.py:161 | the count of leading characters removed by `lstrip()`: all of them are whitespace and the next character is not |
| StrOps.TrailingSpaces | backend/app.py:161 | the count of trailing characters removed by `rstrip()`: all of them are whitespace and the character before them is not |
| StrOps.StripStart | backend/app.py:161 | the result is a suffix of the input, everything removed is whitespace, and it does not start with whitespace |
| StrOps.StripEnd | backend/app.py:161 | the result is a prefix of the input, everything removed is whitespace, and it does not end with whitespace |
| StrOps.Strip | backend/app.py:161 | the stripped string neither starts nor ends with whitespace |
| StrOps.TrimBounds | backend/app.py:161 | gives the bounds `i <= j` of the slice `strip()` keeps, with only whitespace before `i` and after `j` |
| StrOps.StripOfLowerHasNoUpper | backend/app.py:161 | `lower().strip()` leaves no ASCII capital |
| StrOps.StripIsTrim | backend/app.py:161 | `strip()` returns a slice `s[i..j]` with only whitespace before `i` and after `j` |
| StrOps.StripFixesTrimmed | backend/app.py:161 | a string without whitespace at its ends is left unchanged by `strip()` |
| StrOps.LowerFixesLowercase | backend/app.py:161 | a string without capitals is left unchanged by `lower()` |
| StrOps.Occurs | backend/app.py:179 | `key in query` can only hold when the key is no longer than the query |
| StrOps.OccursIff | backend/app.py:179 | `key in query` holds exactly when the key equals some slice of the query |
| DataUrl.Split | backend/app.py:39 | `split(',')` gives at least one field, no field holds a comma, and there are two or more fields exactly when the string holds a comma |
| DataUrl.JoinSplit | backend/app.py:39 | joining the fields of `split(',')` with commas gives back the string |
| DataUrl.SplitJoin | backend/app.py:39 | splitting comma-free fields joined with commas gives back the fields |
| DataUrl.StripDataUrlPrefix | backend/app.py:38-39 | a payload without a comma is returned unchanged, and the result never holds a comma |
| DataUrl.DataUrlRoundTrip | backend/app.py:38-39 | for `header,data` with comma-free header and data, the strip returns exactly the data |
| DataUrl.DataUrlTruncatesAtSecondComma | backend/app.py:39 | after the first comma only the text up to the next comma is kept |
| DataUrl.Preprocess | backend/app.py:34-48 | a payload that is not a string yields no image (it raises somewhere inside `preprocess_image`); a string without a comma is decoded as it is |
| DataUrl.PreprocessDataUrl | backend/app.py:34-44 | a data URL `header,data` with comma-free header and data is decoded from `data` alone, whatever the header |
| Plates.KeepPlateChars | backend/app.py:97 | the removal of `[^A-Z0-9]` leaves only A–Z and 0–9 and never lengthens the text |
| Plates.Clean | backend/app.py:97 | the cleaned text holds only A–Z and 0–9 and is no longer than the OCR text |
| Plates.KeepPlateCharsAppend | backend/app.py:97 | the removal of `[^A-Z0-9]` distributes over concatenation, so kept characters keep their order |
| Plates.KeepPlateCharsSingle | backend/app.py:97 | one character is kept exactly when it is in A–Z or 0–9 |
| Plates.CleanKeepsPlateChars | backend/app.py:97 | every character of the upper-cased text that is in A–Z or 0–9 survives cleaning |
| Plates.CleanFixesPlateText | backend/app.py:97 | cleaning a string of A–Z and 0–9 returns it unchanged |
| Plates.CleanIdempotent | backend/app.py:97 | cleaning twice is cleaning once |
| Plates.PatternRedundant | backend/app.py:100 | once the cleaned text has at least 4 characters, `^[A-Z0-9]+$` matches it |
| Plates.KeepReading | backend/app.py:94-105 | a reading is kept exactly when its confidence is above 0.5 and its cleaned text has 4 to 12 characters, as (cleaned text, confidence, box) |
| Plates.Plates | backend/app.py:93-105 | there are no more candidates than readings |
| Plates.PlatesOf | backend/app.py:88-110 | a `readtext` call that raises yields no candidates; otherwise there are no more candidates than readings, and PlatesSingle and PlatesAppend fix which ones |
| Plates.PlatesArePlateCandidates | backend/app.py:94-105 | every kept candidate has confidence above 0.5 and plate-shaped text |
| Plates.PlatesSingle | backend/app.py:94-105 | one reading yields exactly the candidate that KeepReading gives, or nothing |
| Plates.PlatesAppend | backend/app.py:93-105 | filtering distributes over concatenation, so kept readings keep their OCR order |
| Plates.ExtractLicensePlateText | backend/app.py:86-110 | the loop's list equals the filtered readings, or is empty when OCR raised; every entry is a plate candidate |
| Regions.Vehicles | backend/app.py:61-67 | only detections of class 2, 5 or 7 with confidence above 0.5 are selected |
| Regions.VehiclesSingle | backend/app.py:66-67 | one detection is selected exactly when it is of class 2, 5 or 7 with confidence above 0.5 |
| Regions.VehiclesMembers | backend/app.py:66-67 | a detection is selected exactly when it is among the detections and qualifies |
| Regions.VehiclesAppend | backend/app.py:66-67 | selection distributes over concatenation, so regions follow detection order |
| Regions.CropAll | backend/app.py:66-75 | cropping fails exactly when some qualifying crop raises; otherwise there is one region per vehicle, each its crop |
| Regions.CropStep | backend/app.py:66-75 | one more detection is skipped when it does not qualify; otherwise its crop is appended, and a raising crop makes the whole selection fail |
| Regions.CropFailurePersists | backend/app.py:66-84 | once a crop has raised, the later detections cannot rescue the selection |
| Regions.CropAllAppend | backend/app.py:66-75 | cropping a concatenation is the concatenation of the crops, and fails when either part fails |
| Regions.SelectRegions | backend/app.py:50-84 | the region list is never empty |
| Regions.DetectLicensePlateRegion | backend/app.py:50-84 | the loop with its early exception exit returns the specified regions, never an empty list |
| Regions.FallbackToWholeImage | backend/app.py:52-84 | a missing detector, an inference error, no qualifying vehicle or a failing crop each yield exactly `[image]` |
| Regions.RegionsAreVehicleCrops | backend/app.py:64-81 | otherwise there is one region per qualifying detection, in detection order, each the crop of that detection |
| PlateDetection.StatusCode | backend/app.py:119-154 | status 200 is given exactly for the found and not-found replies |
| PlateDetection.Texts | backend/app.py:143 | `all_detections` lists the text of every detection, in order |
| PlateDetection.MaxFrom | backend/app.py:138 | the scan of `max` ends on a candidate at least as confident as all others, strictly more confident than all before it |
| PlateDetection.BestIndex | backend/app.py:138 | `max(..., key=confidence)` picks a most confident candidate, the earliest among ties |
| PlateDetection.BestIndexUnique | backend/app.py:138 | the two properties of the pick determine it uniquely |
| PlateDetection.DetectPlate | backend/app.py:113-154 | the handler, with its loop over regions, returns the specified reply |
| PlateDetection.AllDetections | backend/app.py:129-134 | `all_detections` after the loop: the candidates of each region in region order, as AllDetectionsStep and AllDetectionsAppend state, each a plate candidate by AllDetectionsArePlates |
| PlateDetection.Report | backend/app.py:137-150 | the reply after aggregation always has status 200, and is "no plate" exactly when there is no detection; ReportsBestDetection gives the found plate |
| PlateDetection.DetectPlateSpec | backend/app.py:113-154 | the handler's reply is a server error (500) exactly when the body is missing or unparsable; MissingImageRejectedFirst, UndecodableRejected and ReportsBestDetection give the other replies |
| PlateDetection.AllDetectionsAppend | backend/app.py:129-134 | detections of a split region list are those of the first part followed by those of the second, so region order is kept |
| PlateDetection.AllDetectionsStep | backend/app.py:132-134 | one more region appends exactly its own candidates to `all_detections` |
| PlateDetection.AllDetectionsArePlates | backend/app.py:129-134 | every aggregated detection passed the confidence and plate-shape filter |
| PlateDetection.MissingImageRejectedFirst | backend/app.py:116-119 | a missing or unparsable body (`get_json()` gives None or raises) gives 500; a missing `image` key gives 400 "No image provided", whatever the decoder, detector and OCR would do |
| PlateDetection.UndecodableRejected | backend/app.py:121-124 | a non-string or undecodable image gives status 400 "Invalid image format", whatever the detector and OCR would do |
| PlateDetection.ReportsBestDetection | backend/app.py:137-150 | no detection gives "no plate"; otherwise the plate is plate-shaped, at least as confident as every detection, the earliest among equals, and all texts are listed in region order |
| Chatbot.RawQuery | backend/app.py:160-161 | `data.get('query', '')`: unusable exactly when there is no body or the `query` value is not a string; a missing key reads as the empty query and a string value as itself |
| Chatbot.NormalizeQuery | backend/app.py:161 | the normalised query holds no capital and neither starts nor ends with whitespace |
| Chatbot.MatchFrom | backend/app.py:177-181 | the scan of a table stops at the first key that occurs in the query, having passed only keys that do not |
| Chatbot.ReplyIn | backend/app.py:176-185 | the reply a table gives is one of its replies or the default; FirstMatchIsFound and NoMatchIsDefault say which |
| Chatbot.ReplyFor | backend/app.py:164-185 | the reply of the handler's own nine-rule table, characterised by ReplyIsFirstMatch: the default exactly when no key occurs, otherwise the value of the first occurring key |
| Chatbot.Chat | backend/app.py:157-195 | no body or a non-string `query` gives a server error; a missing `query` gives the default reply with an empty echoed query; a string query `s` gives the first-match reply for `s.lower().strip()` and echoes it |
| Chatbot.FindResponse | backend/app.py:176-185 | the `for`/`break` scan returns the first-match reply of the rule table, or the default |
| Chatbot.FirstMatchIsFound | backend/app.py:177-181 | an occurring key with no earlier occurring key determines the reply |
| Chatbot.NoMatchIsDefault | backend/app.py:183-185 | when no key occurs, the default reply is given |
| Chatbot.RepliesDifferFromDefault | backend/app.py:164-185 | no rule of the table answers with the default reply |
| Chatbot.ReplyIsFirstMatch | backend/app.py:164-185 | the reply is the default exactly when no key occurs; otherwise it is the value of the first occurring key in table order |
| Chatbot.EmergencyShadowedByHelpMe | backend/app.py:164-181 | table order decides: a query holding `help me`, such as "emergency help me", never gets the emergency reply |
| Chatbot.ShortQueryGetsDefault | backend/app.py:164-185 | every key has at least 7 characters, so a shorter query gets the default reply |
| Chatbot.NormalizeIdempotent | backend/app.py:161 | normalising the echoed query again changes nothing |
| Chatbot.CaseInsensitive | backend/app.py:161 | an upper-cased query is normalised to the same query, so it gets the same reply |

## Left out

- `backend/app.py` holds no navigation or route-tracking code, so GPS navigation is not part of this model.
- YOLOv5 and torch loading and inference, and pandas row iteration (backend/app.py:27-32, 58-62), are foreign libraries. They are the `model` parameter.
- EasyOCR `readtext` (backend/app.py:90) is a foreign call. It is the `readtext` parameter.
- Base64 decoding and `cv2.imdecode` (backend/app.py:42-44) are the `decode` parameter.
- The numpy crop, including the floating-point `int(height * 0.6)` (backend/app.py:69-74), is the `crop` parameter.
- Regions.Vehicles: the class id is taken as an integer; the `int()` conversion of the detector's class column is not modelled.
- `/speak` (gTTS synthesis and temporary files) is I/O and is not modelled.
- `/health`, logging, CORS, Flask routing and `app.run` are plumbing and are not modelled. HTTP status codes are kept only as reply kinds.
- PlateDetection.DetectPlate: the text of a 500 reply is `str(e)` of an unknown exception and is not modelled.
- Confidences are `real` numbers that are only compared; NaN is not modelled.
- A request body is either a JSON object or absent (`get_json()` gave None or raised). JSON arrays and scalars as bodies are not modelled. A value is either a string or some other JSON value.
- PlateDetection.DetectPlate: for a JSON array or string body without `image`, `'image' not in data` holds and the source answers 400 "No image provided"; such bodies are outside the model. At `/chatbot` the same bodies make `data.get` raise and give 500; they are not modelled there either.
- StrOps.Lower: only ASCII letters are mapped. Python's Unicode `lower()` also maps letters such as U+212A KELVIN SIGN to `k`.
- StrOps.Upper: only ASCII letters are mapped. Python's Unicode `upper()` also maps U+017F (long s) to `S` and U+FB00 to `FF`, which can add plate characters.
- StrOps.Strip: the whitespace set is Python's `str.isspace()` written out by code point; no Unicode database is consulted.
