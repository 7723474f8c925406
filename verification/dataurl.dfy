/** The data-URL prefix strip at the top of `preprocess_image`: a payload of the form
    `data:[<mediatype>][;base64],<data>` (section 3 of RFC 2397) is cut down to its
    data part with Python's `image_data.split(',')[1]`. */
module DataUrl {
  import opened Wrappers

  /** Python's `s.split(',')`: the comma-separated fields, empty ones included. */
  function Split(s: string): (fields: seq<string>)
    ensures |fields| >= 1
    ensures forall k :: 0 <= k < |fields| ==> ',' !in fields[k]
    ensures ',' in s <==> |fields| >= 2
  {
    if s == [] then [[]]
    else if s[0] == ',' then [[]] + Split(s[1..])
    else
      var rest := Split(s[1..]);
      [[s[0]] + rest[0]] + rest[1..]
  }

  /** `','.join(fields)`, the inverse of Split. */
  function Join(fields: seq<string>): string
    requires |fields| >= 1
  {
    if |fields| == 1 then fields[0] else fields[0] + "," + Join(fields[1..])
  }

  lemma {:induction false} JoinSplit(s: string)
    ensures Join(Split(s)) == s
  {
    if s == [] {
    } else if s[0] == ',' {
      JoinSplit(s[1..]);
      assert Split(s)[1..] == Split(s[1..]);
    } else {
      JoinSplit(s[1..]);
      var rest := Split(s[1..]);
      assert Split(s)[1..] == rest[1..];
      if |rest| > 1 {
        assert rest[1..] == rest[1..][..];
        assert Join(rest) == rest[0] + "," + Join(rest[1..]);
      }
    }
  }

  lemma {:induction false} SplitJoin(fields: seq<string>)
    requires |fields| >= 1
    requires forall k :: 0 <= k < |fields| ==> ',' !in fields[k]
    ensures Split(Join(fields)) == fields
  {
    if |fields| == 1 {
      SplitField(fields[0], []);
    } else {
      SplitJoin(fields[1..]);
      SplitField(fields[0], Join(fields[1..]));
    }
  }

  /** Splitting a comma-free field followed by a comma and the rest. */
  lemma {:induction false} SplitField(f: string, tail: string)
    requires ',' !in f
    ensures Split(f) == [f]
    ensures Split(f + "," + tail) == [f] + Split(tail)
  {
    if f == [] {
      assert f + "," + tail == [','] + tail;
      assert (f + "," + tail)[1..] == tail;
    } else {
      SplitField(f[1..], tail);
      assert (f + "," + tail)[1..] == f[1..] + "," + tail;
      assert [f[0]] + f[1..] == f;
    }
  }

  /** `image_data.split(',')[1] if ',' in image_data else image_data`. */
  function StripDataUrlPrefix(payload: string): (data: string)
    ensures ',' !in payload ==> data == payload
    ensures ',' !in data
  {
    if ',' in payload then Split(payload)[1] else payload
  }

  /** For a well-formed data URL whose header and data hold no comma (base64 data never
      does), the strip returns exactly the data. */
  lemma DataUrlRoundTrip(header: string, data: string)
    requires ',' !in header && ',' !in data
    ensures StripDataUrlPrefix(header + "," + data) == data
  {
    SplitJoin([header, data]);
    assert Join([header, data]) == header + "," + data;
  }

  /** When the data part holds further commas, only the text up to the next comma is kept. */
  lemma DataUrlTruncatesAtSecondComma(header: string, data: string)
    requires ',' !in header
    ensures StripDataUrlPrefix(header + "," + data) == Split(data)[0]
  {
    SplitField(header, data);
    assert ',' in header + "," + data by { assert (header + "," + data)[|header|] == ','; }
  }

  /** `preprocess_image` up to the decode: a string payload is stripped and handed to
      the base64 and image decoder `decode` (None when it raises or cannot decode);
      anything else raises somewhere inside `preprocess_image` (at the `in` test, the
      `split` or the base64 decoding, depending on its kind), which yields None. */
  function Preprocess<Img>(payload: Json, decode: string -> Option<Img>): (image: Option<Img>)
    ensures payload.JOther? ==> image == None
    ensures payload.JString? && ',' !in payload.s ==> image == decode(payload.s)
  {
    match payload
    case JString(s) => decode(StripDataUrlPrefix(s))
    case JOther => None
  }

  /** A data URL whose header and data hold no comma is decoded from its data part alone,
      whatever the header says. */
  lemma PreprocessDataUrl<Img>(header: string, data: string, decode: string -> Option<Img>)
    requires ',' !in header && ',' !in data
    ensures Preprocess(JString(header + "," + data), decode) == decode(data)
  {
    DataUrlRoundTrip(header, data);
  }
}
