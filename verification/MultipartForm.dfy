/**
 The locator and the splice of src/multipart.rs seen from the form a client
 meant: a form is rendered to bytes, the locator finds the first field its
 header test accepts, and splicing a new value gives the rendering of the form
 with that one value changed.
 */
module MultipartForm {
  import opened Common
  import opened Multipart

  datatype Field = Field(headers: Bytes, value: Bytes)

  /** Everything after an opening line: the parts, the closing dashes, whatever follows. */
  function Rest(fields: seq<Field>, sep: Bytes, epilogue: Bytes): Bytes {
    if fields == [] then DASHES + epilogue
    else Rendered(fields[0]) + sep + Rest(fields[1..], sep, epilogue)
  }

  function Rendered(f: Field): Bytes { CRLF + f.headers + BLANK_LINE + f.value }

  function Form(fields: seq<Field>, boundary: Bytes, epilogue: Bytes): Bytes {
    Opening(boundary) + Rest(fields, Separator(boundary), epilogue)
  }

  /** `end` is first met where `text` stops. */
  ghost predicate EndsAtFirst(text: Bytes, end: Bytes) {
    forall j: nat | j < |text| :: !At(text + end, j, end)
  }

  /** What RFC 2046 asks of a part: no blank line in its headers and no
      delimiter in its value. */
  ghost predicate Encodable(f: Field, sep: Bytes) {
    EndsAtFirst(f.headers, BLANK_LINE) && !Contains(f.value, sep)
  }

  ghost predicate AllEncodable(fields: seq<Field>, sep: Bytes) {
    forall i :: 0 <= i < |fields| ==> Encodable(fields[i], sep)
  }

  // ----- finding one part -----------------------------------------------

  lemma ValueEndsAtFirst(value: Bytes, sep: Bytes)
    requires OneCR(sep) && !Contains(value, sep)
    ensures EndsAtFirst(value, sep)
  {
    var out := value + sep;
    assert At(out, |value|, sep);
    forall j: nat | j < |value|
      ensures !At(out, j, sep)
    {
      NoDelimiterFrom(sep, Range(0, 0), value, out, j);
    }
  }

  /** The search from `i` over a body that reads `text` then `end` there. */
  lemma FoundAtItsEnd(body: Bytes, i: nat, text: Bytes, end: Bytes)
    requires end != [] && EndsAtFirst(text, end) && At(body, i, text + end)
    ensures FindFrom(body, end, i) == Some(i + |text|)
  {
    forall k | 0 <= k < |end|
      ensures body[i + |text| + k] == end[k]
    {
      assert (text + end)[|text| + k] == end[k];
    }
    forall j: nat | i <= j < i + |text|
      ensures !At(body, j, end)
    {
      assert !At(text + end, j - i, end);
      var k :| 0 <= k < |end| && (text + end)[j - i + k] != end[k];
      assert body[i + (j - i + k)] == (text + end)[j - i + k];
    }
    FirstIsFound(body, end, i, i + |text|);
  }

  lemma AtPieces(body: Bytes, i: nat, a: Bytes, b: Bytes)
    requires At(body, i, a + b)
    ensures At(body, i, a) && At(body, i + |a|, b)
  {
    assert forall k :: 0 <= k < |a| ==> (a + b)[k] == a[k];
    assert forall k :: 0 <= k < |b| ==> (a + b)[|a| + k] == b[k];
  }

  lemma NotTheEnd(body: Bytes, pos: nat)
    requires At(body, pos, CRLF)
    ensures !At(body, pos, DASHES)
  {
    assert body[pos + 0] == CRLF[0] != DASHES[0];
  }

  lemma PartPieces(body: Bytes, sep: Bytes, pos: nat, f: Field)
    requires At(body, pos, Rendered(f) + sep)
    ensures At(body, pos, CRLF) && At(body, pos + 2, f.headers) && At(body, pos + 2, f.headers + BLANK_LINE)
    ensures At(body, pos + 6 + |f.headers|, f.value + sep)
  {
    hide At;
    var h, tail := f.headers, f.value + sep;
    assert Rendered(f) + sep == CRLF + (h + BLANK_LINE + tail);
    AtPieces(body, pos, CRLF, h + BLANK_LINE + tail);
    AtPieces(body, pos + 2, h + BLANK_LINE, tail);
    AtPieces(body, pos + 2, h, BLANK_LINE);
  }

  lemma PartFound(body: Bytes, sep: Bytes, pos: nat, f: Field)
    requires OneCR(sep) && Encodable(f, sep) && At(body, pos, Rendered(f) + sep)
    ensures PartAt(body, sep, pos) ==
            Some(Part(pos + 2, pos + 2 + |f.headers|, Range(pos + 6 + |f.headers|, pos + 6 + |f.headers| + |f.value|)))
  {
    hide At, FindFrom, EndsAtFirst, Contains;
    PartPieces(body, sep, pos, f);
    NotTheEnd(body, pos);
    FoundAtItsEnd(body, pos + 2, f.headers, BLANK_LINE);
    ValueEndsAtFirst(f.value, sep);
    FoundAtItsEnd(body, pos + 6 + |f.headers|, f.value, sep);
  }

  lemma ReadAt(body: Bytes, i: nat, text: Bytes)
    requires At(body, i, text)
    ensures i + |text| <= |body| && body[i..i + |text|] == text
  {
  }

  // ----- finding a field of a form --------------------------------------

  /** The first field the test accepts, or the number of fields. */
  ghost function FirstNamed(fields: seq<Field>, named: HeaderTest): (k: nat)
    ensures k <= |fields|
    ensures k < |fields| ==> named(fields[k].headers)
    ensures forall j :: 0 <= j < k ==> !named(fields[j].headers)
  {
    if fields == [] || named(fields[0].headers) then 0 else FirstNamed(fields[1..], named) + 1
  }

  /** What stands before field `k`'s value, and after it. */
  ghost function Before(fields: seq<Field>, sep: Bytes, k: nat): Bytes
    requires k < |fields|
  {
    if k == 0 then CRLF + fields[0].headers + BLANK_LINE
    else Rendered(fields[0]) + sep + Before(fields[1..], sep, k - 1)
  }

  ghost function After(fields: seq<Field>, sep: Bytes, epilogue: Bytes, k: nat): Bytes
    requires k < |fields|
  {
    sep + Rest(fields[k + 1..], sep, epilogue)
  }

  lemma {:induction false} SplitAtValue(fields: seq<Field>, sep: Bytes, epilogue: Bytes, k: nat)
    requires k < |fields|
    ensures Rest(fields, sep, epilogue) == Before(fields, sep, k) + fields[k].value + After(fields, sep, epilogue, k)
    decreases k
  {
    if k > 0 {
      SplitAtValue(fields[1..], sep, epilogue, k - 1);
      assert fields[1..][k..] == fields[k + 1..];
    }
  }

  function Set(fields: seq<Field>, k: nat, value: Bytes): seq<Field>
    requires k < |fields|
  {
    fields[k := fields[k].(value := value)]
  }

  /** Neither side depends on the value between them. */
  lemma {:induction false} SidesStay(fields: seq<Field>, sep: Bytes, epilogue: Bytes, k: nat, value: Bytes)
    requires k < |fields|
    ensures Before(Set(fields, k, value), sep, k) == Before(fields, sep, k)
    ensures After(Set(fields, k, value), sep, epilogue, k) == After(fields, sep, epilogue, k)
    decreases k
  {
    assert Set(fields, k, value)[k + 1..] == fields[k + 1..];
    if k > 0 {
      assert Set(fields, k, value)[1..] == Set(fields[1..], k - 1, value);
      SidesStay(fields[1..], sep, epilogue, k - 1, value);
    }
  }

  /** Where field `k`'s value sits when its part list starts at `pos`. */
  ghost function ValueRange(fields: seq<Field>, sep: Bytes, pos: nat, k: nat): Range
    requires k < |fields|
  {
    var start := pos + |Before(fields, sep, k)|;
    Range(start, start + |fields[k].value|)
  }

  ghost predicate ReadsOnFrom(body: Bytes, pos: nat, rest: Bytes) {
    pos <= |body| && body[pos..] == rest
  }

  lemma FirstPartRead(body: Bytes, pos: nat, fields: seq<Field>, sep: Bytes, epilogue: Bytes)
    requires fields != [] && ReadsOnFrom(body, pos, Rest(fields, sep, epilogue))
    ensures At(body, pos, Rendered(fields[0]) + sep)
    ensures ReadsOnFrom(body, pos + |Rendered(fields[0])| + |sep|, Rest(fields[1..], sep, epilogue))
  {
    var first, rest := Rendered(fields[0]) + sep, Rest(fields[1..], sep, epilogue);
    assert body[pos..] == first + rest;
    assert forall k :: 0 <= k < |first| ==> body[pos + k] == body[pos..][k] == first[k];
    assert body[pos + |first|..] == body[pos..][|first|..] == rest;
  }

  lemma NothingAfterTheDashes(body: Bytes, pos: nat, sep: Bytes, epilogue: Bytes)
    requires ReadsOnFrom(body, pos, DASHES + epilogue)
    ensures PartAt(body, sep, pos) == None
  {
    assert forall k :: 0 <= k < 2 ==> body[pos + k] == body[pos..][k] == DASHES[k];
  }

  lemma {:induction false} LocatesFrom(body: Bytes, pos: nat, fields: seq<Field>, sep: Bytes, epilogue: Bytes, named: HeaderTest)
    requires OneCR(sep) && AllEncodable(fields, sep) && ReadsOnFrom(body, pos, Rest(fields, sep, epilogue))
    ensures var k := FirstNamed(fields, named);
            FieldFrom(body, sep, named, pos) == if k < |fields| then Some(ValueRange(fields, sep, pos, k)) else None
    decreases |fields|
  {
    hide At, PartAt, Encodable, ReadsOnFrom, OneCR;
    if fields == [] {
      NothingAfterTheDashes(body, pos, sep, epilogue);
    } else {
      var f, next := fields[0], pos + |Rendered(fields[0])| + |sep|;
      FirstPartRead(body, pos, fields, sep, epilogue);
      PartFound(body, sep, pos, f);
      PartPieces(body, sep, pos, f);
      ReadAt(body, pos + 2, f.headers);
      if !named(f.headers) {
        assert FieldFrom(body, sep, named, pos) == FieldFrom(body, sep, named, next);
        LocatesFrom(body, next, fields[1..], sep, epilogue, named);
      }
    }
  }

  /** The locator returns the place of the first accepted field, and nothing
      when there is none. */
  lemma LocatorFindsTheFirstNamedField(fields: seq<Field>, boundary: Bytes, epilogue: Bytes, named: HeaderTest)
    requires NoCR(boundary) && AllEncodable(fields, Separator(boundary))
    ensures var k := FirstNamed(fields, named);
            FindField(Form(fields, boundary, epilogue), boundary, named) ==
            if k < |fields| then Some(ValueRange(fields, Separator(boundary), |Opening(boundary)|, k)) else None
  {
    var body, sep, start := Form(fields, boundary, epilogue), Separator(boundary), |Opening(boundary)|;
    SeparatorHasOneCR(boundary);
    FirstIsFound(body, Opening(boundary), 0, 0);
    assert body[start..] == Rest(fields, sep, epilogue);
    LocatesFrom(body, start, fields, sep, epilogue, named);
  }

  // ----- splicing -------------------------------------------------------

  lemma Replaced(a: Bytes, b: Bytes, was: Bytes, c: Bytes, value: Bytes)
    ensures var body, r := a + (b + was + c), Range(|a| + |b|, |a| + |b| + |was|);
            && r.end <= |body| && body[r.start..r.end] == was
            && Splice(body, r, value) == a + (b + value + c)
  {
    var body := a + (b + was + c);
    assert body == (a + b) + was + c;
    assert body[..|a| + |b|] == a + b;
    assert body[|a| + |b| + |was|..] == c;
  }

  /** Rewriting the located field is rewriting the form: the range holds the
      field's value, and the spliced bytes are exactly the rendering of the same
      form with that value replaced, for every new value. */
  lemma SpliceRewritesTheForm(fields: seq<Field>, boundary: Bytes, epilogue: Bytes, named: HeaderTest, value: Bytes)
    requires NoCR(boundary) && AllEncodable(fields, Separator(boundary)) && FirstNamed(fields, named) < |fields|
    ensures var body, k := Form(fields, boundary, epilogue), FirstNamed(fields, named);
            var found := FindField(body, boundary, named);
            && found.Some? && found.value.start <= found.value.end <= |body|
            && body[found.value.start..found.value.end] == fields[k].value
            && Splice(body, found.value, value) == Form(Set(fields, k, value), boundary, epilogue)
  {
    hide FindField, Rest, Before, After, Splice, Opening, FirstNamed, Encodable, AllEncodable;
    var sep, k := Separator(boundary), FirstNamed(fields, named);
    LocatorFindsTheFirstNamedField(fields, boundary, epilogue, named);
    SplitAtValue(fields, sep, epilogue, k);
    SplitAtValue(Set(fields, k, value), sep, epilogue, k);
    SidesStay(fields, sep, epilogue, k, value);
    Replaced(Opening(boundary), Before(fields, sep, k), fields[k].value, After(fields, sep, epilogue, k), value);
  }

  /** Splicing the delimiter itself over the located field of any form: it is
      not found again whole. */
  lemma ADelimiterInTheValueIsLost(fields: seq<Field>, boundary: Bytes, epilogue: Bytes, named: HeaderTest)
    requires NoCR(boundary) && AllEncodable(fields, Separator(boundary)) && FirstNamed(fields, named) < |fields|
    ensures var body, value := Form(fields, boundary, epilogue), Separator(boundary);
            var found := FindField(body, boundary, named);
            && found.Some? && found.value.start <= found.value.end <= |body|
            && FindField(Splice(body, found.value, value), boundary, named) !=
               Some(Range(found.value.start, found.value.start + |value|))
  {
    hide FindField, Form, Splice, ValueRange, FirstNamed, AllEncodable, Separator, NoCR;
    var body, value := Form(fields, boundary, epilogue), Separator(boundary);
    LocatorFindsTheFirstNamedField(fields, boundary, epilogue, named);
    assert At(value, 0, value);
    RoundTripIffNoDelimiter(body, boundary, named, FindField(body, boundary, named).value, value);
  }

  /** Content-Disposition: form-data; name="model" */
  const MODEL_HEADER: Bytes :=
    [67, 111, 110, 116, 101, 110, 116, 45, 68, 105, 115, 112, 111, 115, 105, 116, 105, 111, 110, 58, 32,
     102, 111, 114, 109, 45, 100, 97, 116, 97, 59, 32, 110, 97, 109, 101, 61, 34, 109, 111, 100, 101, 108, 34]

  lemma OneLineHeader(headers: Bytes)
    requires NoCR(headers)
    ensures EndsAtFirst(headers, BLANK_LINE)
  {
    forall j: nat | j < |headers|
      ensures !At(headers + BLANK_LINE, j, BLANK_LINE)
    {
      assert (headers + BLANK_LINE)[j + 0] == headers[j] != BLANK_LINE[0];
    }
  }

  /** The upload `--x`, one empty model field, `--x--`, under any test that
      takes its header for the model's. */
  lemma AModelNameWithADelimiterIsLost(named: HeaderTest)
    requires named(MODEL_HEADER)
    ensures var body, value := Form([Field(MODEL_HEADER, [])], [120], []), Separator([120]);
            var found := FindField(body, [120], named);
            && found.Some? && found.value.start <= found.value.end <= |body|
            && FindField(Splice(body, found.value, value), [120], named) !=
               Some(Range(found.value.start, found.value.start + |value|))
  {
    OneLineHeader(MODEL_HEADER);
    ADelimiterInTheValueIsLost([Field(MODEL_HEADER, [])], [120], [], named);
  }
}
