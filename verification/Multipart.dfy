/**
 Locating one field of a `multipart/form-data` body and splicing a new value
 over it (src/multipart.rs). Delimiters follow section 5.1.1 of RFC 2046.

 A part is chosen by a test on its header bytes. Everything below holds for
 every such test, so `named` is a parameter.
 */
module Multipart {
  import opened Common

  type byte = b: int | 0 <= b < 256
  type Bytes = seq<byte>
  type HeaderTest = Bytes -> bool

  const CR: byte := 13
  const LF: byte := 10
  const DASH: byte := 45
  const CRLF: Bytes := [CR, LF]
  const BLANK_LINE: Bytes := [CR, LF, CR, LF]
  const DASHES: Bytes := [DASH, DASH]

  datatype Range = Range(start: nat, end: nat)

  function Opening(boundary: Bytes): Bytes { DASHES + boundary }

  function Separator(boundary: Bytes): Bytes { CRLF + Opening(boundary) }

  /** `needle` occurs in `haystack` at `i`. */
  predicate At(haystack: Bytes, i: nat, needle: Bytes) {
    i + |needle| <= |haystack| && forall k :: 0 <= k < |needle| ==> haystack[i + k] == needle[k]
  }

  ghost predicate Contains(haystack: Bytes, needle: Bytes) {
    exists i: nat :: At(haystack, i, needle)
  }

  /** The first occurrence at or after `i`. */
  function FindFrom(haystack: Bytes, needle: Bytes, i: nat): Option<nat>
    decreases |haystack| + 1 - i
  {
    if needle == [] || i + |needle| > |haystack| then None
    else if At(haystack, i, needle) then Some(i)
    else FindFrom(haystack, needle, i + 1)
  }

  datatype Part = Part(headersStart: nat, headersEnd: nat, value: Range)

  /** The part whose opening line ends at `pos`: its headers run to the first
      blank line and its value to the next delimiter. `None` after the last. */
  function PartAt(body: Bytes, sep: Bytes, pos: nat): Option<Part> {
    if At(body, pos, DASHES) || !At(body, pos, CRLF) then None else
      var blank := FindFrom(body, BLANK_LINE, pos + 2);
      if blank.None? then None else
        var separator := FindFrom(body, sep, blank.value + 4);
        if separator.None? then None
        else Some(Part(pos + 2, blank.value, Range(blank.value + 4, separator.value)))
  }

  lemma PartShape(body: Bytes, sep: Bytes, pos: nat)
    requires PartAt(body, sep, pos).Some?
    ensures var p := PartAt(body, sep, pos).value;
            && p.headersStart == pos + 2 <= p.headersEnd && p.headersEnd + 4 == p.value.start <= p.value.end
            && p.value.end + |sep| <= |body|
            && At(body, pos, CRLF) && At(body, p.value.end, sep)
  {
    var p := PartAt(body, sep, pos).value;
    FindIsFirst(body, BLANK_LINE, pos + 2);
    FindIsFirst(body, sep, p.value.start);
  }

  function FieldFrom(body: Bytes, sep: Bytes, named: HeaderTest, pos: nat): Option<Range>
    decreases |body| - pos
  {
    var part := PartAt(body, sep, pos);
    if part.None? then None else
      PartShape(body, sep, pos);
      if named(body[part.value.headersStart..part.value.headersEnd]) then Some(part.value.value)
      else FieldFrom(body, sep, named, part.value.value.end + |sep|)
  }

  function FindField(body: Bytes, boundary: Bytes, named: HeaderTest): Option<Range> {
    var first := FindFrom(body, Opening(boundary), 0);
    if first.None? then None else FieldFrom(body, Separator(boundary), named, first.value + |Opening(boundary)|)
  }

  function Splice(body: Bytes, r: Range, value: Bytes): Bytes
    requires r.start <= r.end <= |body|
  {
    body[..r.start] + value + body[r.end..]
  }

  // ----- what a search finds --------------------------------------------

  lemma {:induction false} FindIsFirst(haystack: Bytes, needle: Bytes, i: nat)
    requires FindFrom(haystack, needle, i).Some?
    ensures var at := FindFrom(haystack, needle, i).value;
            needle != [] && i <= at && At(haystack, at, needle) && forall j: nat :: i <= j < at ==> !At(haystack, j, needle)
    decreases |haystack| + 1 - i
  {
    if !At(haystack, i, needle) {
      FindIsFirst(haystack, needle, i + 1);
    }
  }

  lemma {:induction false} FirstIsFound(haystack: Bytes, needle: Bytes, i: nat, at: nat)
    requires needle != [] && i <= at && At(haystack, at, needle)
    requires forall j: nat :: i <= j < at ==> !At(haystack, j, needle)
    ensures FindFrom(haystack, needle, i) == Some(at)
    decreases at - i
  {
    if i < at {
      FirstIsFound(haystack, needle, i + 1, at);
    }
  }

  // ----- the loops ------------------------------------------------------

  /** `find(body.get(from..)?, needle)? + from` */
  method FindBytes(body: Bytes, needle: Bytes, from: nat) returns (r: Option<nat>)
    ensures r == FindFrom(body, needle, from)
  {
    if needle == [] {
      return None;
    }
    var i := from;
    while i + |needle| <= |body|
      invariant FindFrom(body, needle, from) == FindFrom(body, needle, i)
    {
      if At(body, i, needle) {
        return Some(i);
      }
      i := i + 1;
    }
    return None;
  }

  /** One turn of the loop in `find_field`, up to the header test. */
  method NextPart(body: Bytes, sep: Bytes, pos: nat) returns (part: Option<Part>)
    ensures part == PartAt(body, sep, pos)
  {
    hide FindFrom;
    if At(body, pos, DASHES) || !At(body, pos, CRLF) {
      return None;
    }
    var headersEnd := FindBytes(body, BLANK_LINE, pos + 2);
    if headersEnd.None? {
      return None;
    }
    var valueStart := headersEnd.value + 4;
    var valueEnd := FindBytes(body, sep, valueStart);
    if valueEnd.None? {
      return None;
    }
    return Some(Part(pos + 2, headersEnd.value, Range(valueStart, valueEnd.value)));
  }

  method LocateField(body: Bytes, boundary: Bytes, named: HeaderTest) returns (r: Option<Range>)
    ensures r == FindField(body, boundary, named)
  {
    hide PartAt, FindFrom, Separator, At;
    var opening := Opening(boundary);
    var separator := Separator(boundary);
    var first := FindBytes(body, opening, 0);
    if first.None? {
      return None;
    }
    var pos := first.value + |opening|;
    while true
      invariant FindField(body, boundary, named) == FieldFrom(body, separator, named, pos)
      decreases |body| - pos
    {
      var part := NextPart(body, separator, pos);
      if part.None? {
        return None;
      }
      PartShape(body, separator, pos);
      var p := part.value;
      if named(body[p.headersStart..p.headersEnd]) {
        return Some(p.value);
      }
      pos := p.value.end + |separator|;
    }
  }

  /** The three copies of `replace_range`. */
  method ReplaceRange(body: Bytes, r: Range, value: Bytes) returns (out: Bytes)
    requires r.start <= r.end <= |body|
    ensures out == Splice(body, r, value)
  {
    out := body[..r.start];
    out := out + value;
    out := out + body[r.end..];
  }

  // ----- two bodies with the same beginning -----------------------------

  ghost predicate SamePrefix(h: Bytes, h': Bytes, len: nat) {
    len <= |h| && len <= |h'| && forall k :: 0 <= k < len ==> h[k] == h'[k]
  }

  /** A match that ends within the shared bytes is the first match in both. */
  lemma FindInPrefix(h: Bytes, h': Bytes, len: nat, needle: Bytes, i: nat)
    requires SamePrefix(h, h', len)
    requires FindFrom(h, needle, i).Some? && FindFrom(h, needle, i).value + |needle| <= len
    ensures FindFrom(h', needle, i) == FindFrom(h, needle, i)
  {
    FindIsFirst(h, needle, i);
    var at := FindFrom(h, needle, i).value;
    forall j: nat | i <= j < at
      ensures !At(h', j, needle)
    {
      assert !At(h, j, needle);
      var k :| 0 <= k < |needle| && h[j + k] != needle[k];
      assert h'[j + k] == h[j + k];
    }
    FirstIsFound(h', needle, i, at);
  }

  /** The headers of a part that lie within the shared bytes. */
  lemma HeadersInPrefix(body: Bytes, out: Bytes, sep: Bytes, pos: nat, len: nat)
    requires SamePrefix(body, out, len)
    requires PartAt(body, sep, pos).Some? && PartAt(body, sep, pos).value.value.start <= len
    ensures var p := PartAt(body, sep, pos).value;
            && At(out, pos, CRLF) && !At(out, pos, DASHES)
            && FindFrom(out, BLANK_LINE, pos + 2) == Some(p.headersEnd)
            && p.headersStart <= p.headersEnd <= len
            && out[p.headersStart..p.headersEnd] == body[p.headersStart..p.headersEnd]
  {
    PartShape(body, sep, pos);
    FindInPrefix(body, out, len, BLANK_LINE, pos + 2);
    assert body[pos + 0] == CRLF[0] && body[pos + 1] == CRLF[1];
    assert out[pos + 0] == CRLF[0] && out[pos + 1] == CRLF[1] && out[pos + 0] != DASHES[0];
  }

  /** A part whose closing delimiter lies within them is the same part. */
  lemma PartInPrefix(body: Bytes, out: Bytes, sep: Bytes, pos: nat, len: nat)
    requires SamePrefix(body, out, len)
    requires PartAt(body, sep, pos).Some?
    requires PartAt(body, sep, pos).value.value.end + |sep| <= len
    ensures PartAt(out, sep, pos) == PartAt(body, sep, pos)
  {
    var p := PartAt(body, sep, pos).value;
    PartShape(body, sep, pos);
    HeadersInPrefix(body, out, sep, pos, len);
    FindInPrefix(body, out, len, sep, p.value.start);
  }

  // ----- two bodies with the same ending --------------------------------

  ghost predicate SameSuffix(h: Bytes, h': Bytes, p: nat, p': nat) {
    && p <= |h| && p' <= |h'| && |h| - p == |h'| - p'
    && forall k {:trigger h[k]} :: p <= k < |h| ==> h[k] == h'[k + p' - p]
  }

  lemma AtInSuffix(h: Bytes, h': Bytes, p: nat, p': nat, needle: Bytes, i: nat)
    requires SameSuffix(h, h', p, p') && p <= i
    ensures At(h, i, needle) == At(h', i + p' - p, needle)
  {
    if i + |needle| <= |h| {
      assert forall k {:trigger needle[k]} :: 0 <= k < |needle| ==> h[i + k] == h'[i + p' - p + k];
    }
  }

  lemma {:induction false} FindInSuffix(h: Bytes, h': Bytes, p: nat, p': nat, needle: Bytes, i: nat)
    requires SameSuffix(h, h', p, p') && p <= i
    ensures var f, f' := FindFrom(h, needle, i), FindFrom(h', needle, i + p' - p);
            f.None? == f'.None? && (f.Some? ==> f.value >= i && f'.value == f.value + p' - p)
    decreases |h| + 1 - i
  {
    if needle != [] && i + |needle| <= |h| {
      AtInSuffix(h, h', p, p', needle, i);
      if !At(h, i, needle) {
        FindInSuffix(h, h', p, p', needle, i + 1);
      }
    }
  }

  lemma PartInSuffix(body: Bytes, out: Bytes, sep: Bytes, pos: nat, pos': nat)
    requires SameSuffix(body, out, pos, pos')
    ensures PartAt(body, sep, pos).None? == PartAt(out, sep, pos').None?
    ensures PartAt(body, sep, pos).Some? ==>
              var p, p' := PartAt(body, sep, pos).value, PartAt(out, sep, pos').value;
              && p'.headersEnd - pos' == p.headersEnd - pos
              && p'.value.start - pos' == p.value.start - pos && p'.value.end - pos' == p.value.end - pos
  {
    AtInSuffix(body, out, pos, pos', DASHES, pos);
    AtInSuffix(body, out, pos, pos', CRLF, pos);
    FindInSuffix(body, out, pos, pos', BLANK_LINE, pos + 2);
    var blank := FindFrom(body, BLANK_LINE, pos + 2);
    if blank.Some? {
      FindInSuffix(body, out, pos, pos', sep, blank.value + 4);
    }
  }

  function Moved(r: Option<Range>, shift: int): Option<Range>
    requires r.Some? ==> r.value.start + shift >= 0 && r.value.end + shift >= 0
  {
    if r.None? then None else Some(Range(r.value.start + shift, r.value.end + shift))
  }

  /** Where a field can be: past its headers, before a delimiter. */
  lemma {:induction false} FieldShape(body: Bytes, sep: Bytes, named: HeaderTest, pos: nat)
    ensures var r := FieldFrom(body, sep, named, pos);
            r.Some? ==> pos + 6 <= r.value.start <= r.value.end && r.value.end + |sep| <= |body|
                        && At(body, r.value.end, sep)
    decreases |body| - pos
  {
    hide PartAt;
    var part := PartAt(body, sep, pos);
    if part.Some? {
      PartShape(body, sep, pos);
      FieldShape(body, sep, named, part.value.value.end + |sep|);
    }
  }

  /** Bodies with the same ending hold the same fields in it, shifted. */
  lemma {:induction false} FieldsInSuffix(body: Bytes, out: Bytes, sep: Bytes, named: HeaderTest, pos: nat, pos': nat)
    requires SameSuffix(body, out, pos, pos')
    ensures var f, f' := FieldFrom(body, sep, named, pos), FieldFrom(out, sep, named, pos');
            && (f.Some? ==> pos + 6 <= f.value.start <= f.value.end)
            && f' == Moved(f, pos' - pos)
    decreases |body| - pos
  {
    hide PartAt;
    PartInSuffix(body, out, sep, pos, pos');
    FieldShape(body, sep, named, pos);
    if PartAt(body, sep, pos).Some? {
      PartShape(body, sep, pos);
      PartShape(out, sep, pos');
      var p, p' := PartAt(body, sep, pos).value, PartAt(out, sep, pos').value;
      assert body[p.headersStart..p.headersEnd] == out[p'.headersStart..p'.headersEnd];
      if !named(body[p.headersStart..p.headersEnd]) {
        FieldsInSuffix(body, out, sep, named, p.value.end + |sep|, p'.value.end + |sep|);
      }
    }
  }

  // ----- the splice -----------------------------------------------------

  /** A delimiter begins with its only CR. */
  ghost predicate OneCR(sep: Bytes) {
    sep != [] && sep[0] == CR && forall k :: 0 < k < |sep| ==> sep[k] != CR
  }

  ghost predicate NoCR(boundary: Bytes) { forall i :: 0 <= i < |boundary| ==> boundary[i] != CR }

  lemma SeparatorHasOneCR(boundary: Bytes)
    requires NoCR(boundary)
    ensures OneCR(Separator(boundary))
  {
    var s := Separator(boundary);
    assert s == [CR, LF, DASH, DASH] + boundary;
  }

  /** `out` is `body` with `value` in place of the bytes of `r`. */
  ghost predicate IsSplice(body: Bytes, r: Range, value: Bytes, out: Bytes) {
    && r.start <= r.end <= |body|
    && SamePrefix(body, out, r.start)
    && SameSuffix(body, out, r.end, r.start + |value|)
    && forall k :: 0 <= k < |value| ==> out[r.start + k] == value[k]
  }

  lemma SpliceIsSplice(body: Bytes, r: Range, value: Bytes)
    requires r.start <= r.end <= |body|
    ensures IsSplice(body, r, value, Splice(body, r, value))
  {
  }

  lemma LaterSuffix(h: Bytes, h': Bytes, p: nat, p': nat, q: nat)
    requires SameSuffix(h, h', p, p') && p <= q <= |h|
    ensures SameSuffix(h, h', q, q + p' - p)
  {
  }

  /** With no delimiter inside the new value, the first delimiter from its
      start on is the one that was already there: one that straddled the seam
      would need a second CR. */
  lemma DelimiterFollowsValue(body: Bytes, sep: Bytes, r: Range, value: Bytes, out: Bytes)
    requires OneCR(sep) && !Contains(value, sep)
    requires IsSplice(body, r, value, out) && At(body, r.end, sep)
    ensures FindFrom(out, sep, r.start) == Some(r.start + |value|)
  {
    AtInSuffix(body, out, r.end, r.start + |value|, sep, r.end);
    forall j: nat | r.start <= j < r.start + |value|
      ensures !At(out, j, sep)
    {
      NoDelimiterFrom(sep, r, value, out, j);
    }
    FirstIsFound(out, sep, r.start, r.start + |value|);
  }

  lemma NoDelimiterFrom(sep: Bytes, r: Range, value: Bytes, out: Bytes, j: nat)
    requires OneCR(sep) && !Contains(value, sep)
    requires r.start <= j < r.start + |value| && At(out, r.start + |value|, sep)
    requires forall k :: 0 <= k < |value| ==> out[r.start + k] == value[k]
    ensures !At(out, j, sep)
  {
    var k := r.start + |value| - j;
    if k < |sep| {
      assert out[r.start + |value| + 0] == sep[0];
      assert out[j + k] != sep[k];
    } else {
      assert !At(value, j - r.start, sep);
      var i :| 0 <= i < |sep| && value[j - r.start + i] != sep[i];
      assert out[r.start + (j - r.start + i)] == value[j - r.start + i];
      assert out[j + i] != sep[i];
    }
  }

  lemma DelimiterInsideValue(body: Bytes, sep: Bytes, r: Range, value: Bytes, out: Bytes)
    requires IsSplice(body, r, value, out) && Contains(value, sep)
    ensures var at := FindFrom(out, sep, r.start);
            at.Some? ==> at.value + |sep| <= r.start + |value|
  {
    var i: nat :| At(value, i, sep);
    assert At(out, r.start + i, sep) by {
      forall k | 0 <= k < |sep|
        ensures out[r.start + i + k] == sep[k]
      {
        assert out[r.start + (i + k)] == value[i + k];
      }
    }
    if FindFrom(out, sep, r.start).Some? {
      FindIsFirst(out, sep, r.start);
    }
  }

  /** Where a field of the original body ends up after the splice at `r`. */
  function Relocated(f: Option<Range>, r: Range, length: nat): Option<Range>
    requires r.start <= r.end
    requires f.Some? ==> f.value.start <= f.value.end
    requires f.Some? && f.value.start > r.start ==> f.value.start >= r.end
  {
    if f.None? || f.value.start < r.start then f
    else if f.value.start == r.start then Some(Range(r.start, r.start + length))
    else Moved(f, length - (r.end - r.start))
  }

  ghost predicate Apart(f: Range, r: Range) {
    f == r || f.end < r.start || r.end < f.start
  }

  /** The fields of one body are disjoint: another test finds the same range,
      one that ends before it, or one that starts after it, with at least the
      delimiter in between. */
  lemma {:induction false} FieldsAreApart(body: Bytes, sep: Bytes, named: HeaderTest, other: HeaderTest, pos: nat)
    requires FieldFrom(body, sep, named, pos).Some? && FieldFrom(body, sep, other, pos).Some?
    ensures var r, f := FieldFrom(body, sep, named, pos).value, FieldFrom(body, sep, other, pos).value;
            && Apart(f, r) && f.start <= f.end <= |body|
            && (f == r || f.end + |sep| <= r.start || r.end + |sep| <= f.start)
    decreases |body| - pos
  {
    hide PartAt;
    FieldShape(body, sep, named, pos);
    FieldShape(body, sep, other, pos);
    PartShape(body, sep, pos);
    var p := PartAt(body, sep, pos).value;
    var headers, next := body[p.headersStart..p.headersEnd], p.value.end + |sep|;
    FieldShape(body, sep, named, next);
    FieldShape(body, sep, other, next);
    if !named(headers) && !other(headers) {
      FieldsAreApart(body, sep, named, other, next);
    }
  }

  /** The part that holds the spliced field, in the new body. */
  lemma SplicedPart(body: Bytes, sep: Bytes, pos: nat, r: Range, value: Bytes, out: Bytes)
    requires OneCR(sep) && !Contains(value, sep) && IsSplice(body, r, value, out)
    requires PartAt(body, sep, pos).Some? && PartAt(body, sep, pos).value.value == r
    ensures PartAt(out, sep, pos) == Some(PartAt(body, sep, pos).value.(value := Range(r.start, r.start + |value|)))
  {
    hide FindFrom, At, Contains, OneCR;
    PartShape(body, sep, pos);
    HeadersInPrefix(body, out, sep, pos, r.start);
    DelimiterFollowsValue(body, sep, r, value, out);
  }

  /** From the spliced part on: the field itself, or one further down. */
  lemma FieldsFromSplice(
      body: Bytes, sep: Bytes, other: HeaderTest, pos: nat, r: Range, value: Bytes, out: Bytes)
    requires OneCR(sep) && !Contains(value, sep) && IsSplice(body, r, value, out)
    requires PartAt(body, sep, pos).Some? && PartAt(body, sep, pos).value.value == r
    requires var f := FieldFrom(body, sep, other, pos); f.Some? ==> f.value.start <= f.value.end && Apart(f.value, r)
    ensures FieldFrom(out, sep, other, pos) == Relocated(FieldFrom(body, sep, other, pos), r, |value|)
  {
    hide PartAt, FindFrom, At, Contains, OneCR;
    var p := PartAt(body, sep, pos).value;
    PartShape(body, sep, pos);
    HeadersInPrefix(body, out, sep, pos, r.start);
    SplicedPart(body, sep, pos, r, value, out);
    var next := p.value.end + |sep|;
    if !other(body[p.headersStart..p.headersEnd]) {
      LaterSuffix(body, out, r.end, r.start + |value|, next);
      FieldsInSuffix(body, out, sep, other, next, next + (r.start + |value|) - r.end);
    }
  }

  lemma {:induction false} FieldsAfterSplice(
      body: Bytes, sep: Bytes, named: HeaderTest, other: HeaderTest, pos: nat, r: Range, value: Bytes, out: Bytes)
    requires OneCR(sep) && !Contains(value, sep) && IsSplice(body, r, value, out)
    requires FieldFrom(body, sep, named, pos) == Some(r)
    requires var f := FieldFrom(body, sep, other, pos); f.Some? ==> f.value.start <= f.value.end && Apart(f.value, r)
    ensures FieldFrom(out, sep, other, pos) == Relocated(FieldFrom(body, sep, other, pos), r, |value|)
    decreases |body| - pos
  {
    hide PartAt, FindFrom, At, Contains, OneCR;
    var p := PartAt(body, sep, pos).value;
    PartShape(body, sep, pos);
    FieldShape(body, sep, named, pos);
    var headers, next := body[p.headersStart..p.headersEnd], p.value.end + |sep|;
    FieldShape(body, sep, named, next);
    HeadersInPrefix(body, out, sep, pos, r.start);
    if named(headers) {
      FieldsFromSplice(body, sep, other, pos, r, value, out);
    } else {
      PartInPrefix(body, out, sep, pos, r.start);
      if !other(headers) {
        FieldsAfterSplice(body, sep, named, other, next, r, value, out);
      }
    }
  }

  lemma OpeningAfterSplice(body: Bytes, boundary: Bytes, named: HeaderTest, r: Range, value: Bytes, out: Bytes)
    requires FindField(body, boundary, named) == Some(r) && IsSplice(body, r, value, out)
    ensures FindFrom(out, Opening(boundary), 0) == FindFrom(body, Opening(boundary), 0)
  {
    hide PartAt, FindFrom, FieldFrom;
    FieldShape(body, Separator(boundary), named, FindFrom(body, Opening(boundary), 0).value + |Opening(boundary)|);
    FindInPrefix(body, out, r.start, Opening(boundary), 0);
  }

  lemma FoundWithin(body: Bytes, boundary: Bytes, named: HeaderTest)
    ensures var r := FindField(body, boundary, named); r.Some? ==> r.value.start <= r.value.end <= |body|
  {
    hide PartAt, FindFrom, FieldFrom;
    var first := FindFrom(body, Opening(boundary), 0);
    if first.Some? {
      FieldShape(body, Separator(boundary), named, first.value + |Opening(boundary)|);
    }
  }

  /** Splice round trip and frame. If the field `named` was located at `r` and
      the new value contains no delimiter, then in the spliced body every field,
      by any test, is found exactly where the splice put it: earlier ones in
      place, the field itself at the same start with the new length, later ones
      shifted, and a missing one still missing. */
  lemma SpliceRelocatesEveryField(
      body: Bytes, boundary: Bytes, named: HeaderTest, other: HeaderTest, r: Range, value: Bytes, out: Bytes)
    requires NoCR(boundary) && !Contains(value, Separator(boundary))
    requires FindField(body, boundary, named) == Some(r) && IsSplice(body, r, value, out)
    ensures var f := FindField(body, boundary, other);
            && (f.Some? ==> f.value.start <= f.value.end <= |body| && Apart(f.value, r))
            && FindField(out, boundary, other) == Relocated(f, r, |value|)
  {
    hide PartAt, FindFrom, FieldFrom;
    var sep, pos := Separator(boundary), FindFrom(body, Opening(boundary), 0).value + |Opening(boundary)|;
    OpeningAfterSplice(body, boundary, named, r, value, out);
    SeparatorHasOneCR(boundary);
    if FieldFrom(body, sep, other, pos).Some? {
      FieldsAreApart(body, sep, named, other, pos);
    }
    FieldsAfterSplice(body, sep, named, other, pos, r, value, out);
  }

  lemma BytesMoveWithTheRange(body: Bytes, f: Range, r: Range, value: Bytes, out: Bytes)
    requires IsSplice(body, r, value, out) && f.start <= f.end <= |body| && Apart(f, r)
    ensures var f' := Relocated(Some(f), r, |value|).value;
            && f'.start <= f'.end <= |out|
            && out[f'.start..f'.end] == if f == r then value else body[f.start..f.end]
  {
  }

  /** A reader of the field gets the new value, and every other field keeps
      its bytes. */
  lemma SpliceKeepsOtherBytes(body: Bytes, boundary: Bytes, named: HeaderTest, other: HeaderTest, r: Range, value: Bytes)
    requires NoCR(boundary) && !Contains(value, Separator(boundary))
    requires FindField(body, boundary, named) == Some(r)
    ensures r.start <= r.end <= |body|
    ensures var out := Splice(body, r, value);
            var f, f' := FindField(body, boundary, other), FindField(out, boundary, other);
            && f.Some? == f'.Some?
            && (f.Some? ==>
                  && f.value.start <= f.value.end <= |body| && f'.value.start <= f'.value.end <= |out|
                  && out[f'.value.start..f'.value.end] == if f.value == r then value else body[f.value.start..f.value.end])
  {
    FoundWithin(body, boundary, named);
    var out := Splice(body, r, value);
    SpliceIsSplice(body, r, value);
    SpliceRelocatesEveryField(body, boundary, named, other, r, value, out);
    var f := FindField(body, boundary, other);
    if f.Some? {
      BytesMoveWithTheRange(body, f.value, r, value, out);
    }
  }

  lemma CutPart(body: Bytes, sep: Bytes, pos: nat, r: Range, value: Bytes, out: Bytes)
    requires PartAt(body, sep, pos).Some? && PartAt(body, sep, pos).value.value == r && IsSplice(body, r, value, out)
    requires sep != [] && Contains(value, sep)
    ensures var p, p' := PartAt(body, sep, pos).value, PartAt(out, sep, pos);
            p'.Some? ==> p'.value.headersStart == p.headersStart && p'.value.headersEnd == p.headersEnd
                         && p'.value.value.end < r.start + |value|
  {
    hide FindFrom, At;
    PartShape(body, sep, pos);
    HeadersInPrefix(body, out, sep, pos, r.start);
    DelimiterInsideValue(body, sep, r, value, out);
  }

  lemma {:induction false} CutShort(body: Bytes, sep: Bytes, named: HeaderTest, pos: nat, r: Range, value: Bytes, out: Bytes)
    requires FieldFrom(body, sep, named, pos) == Some(r) && IsSplice(body, r, value, out)
    requires sep != [] && Contains(value, sep)
    ensures FieldFrom(out, sep, named, pos) != Some(Range(r.start, r.start + |value|))
    decreases |body| - pos
  {
    hide PartAt, FindFrom, At, Contains;
    var p := PartAt(body, sep, pos).value;
    var next := p.value.end + |sep|;
    PartShape(body, sep, pos);
    FieldShape(body, sep, named, pos);
    FieldShape(body, sep, named, next);
    HeadersInPrefix(body, out, sep, pos, r.start);
    if named(body[p.headersStart..p.headersEnd]) {
      CutPart(body, sep, pos, r, value, out);
    } else {
      PartInPrefix(body, out, sep, pos, r.start);
      CutShort(body, sep, named, next, r, value, out);
    }
  }

  /** The condition on the value is exact: with a delimiter inside it the
      located field is cut short. */
  lemma RoundTripIffNoDelimiter(body: Bytes, boundary: Bytes, named: HeaderTest, r: Range, value: Bytes)
    requires NoCR(boundary) && FindField(body, boundary, named) == Some(r)
    ensures r.start <= r.end <= |body|
    ensures FindField(Splice(body, r, value), boundary, named) == Some(Range(r.start, r.start + |value|)) <==>
            !Contains(value, Separator(boundary))
  {
    FoundWithin(body, boundary, named);
    hide PartAt, FindFrom, FieldFrom;
    var out := Splice(body, r, value);
    SpliceIsSplice(body, r, value);
    if Contains(value, Separator(boundary)) {
      OpeningAfterSplice(body, boundary, named, r, value, out);
      CutShort(body, Separator(boundary), named, FindFrom(body, Opening(boundary), 0).value + |Opening(boundary)|, r, value, out);
    } else {
      SpliceRelocatesEveryField(body, boundary, named, named, r, value, out);
    }
  }

  // ----- the alias rewrite of src/proxy.rs ------------------------------

  function RewriteModel(body: Bytes, requested: Bytes, upstream: Bytes, field: Range): Bytes
    requires field.start <= field.end <= |body|
  {
    if requested == upstream then body else Splice(body, field, upstream)
  }

  /** An upstream reading the rewritten upload finds its own model name in the
      model field and every other field byte for byte; a name that is already
      right leaves the upload untouched. */
  lemma RewriteSetsOnlyTheModel(
      body: Bytes, boundary: Bytes, isModel: HeaderTest, other: HeaderTest, requested: Bytes, upstream: Bytes, field: Range)
    requires NoCR(boundary) && !Contains(upstream, Separator(boundary))
    requires FindField(body, boundary, isModel) == Some(field)
    ensures field.start <= field.end <= |body|
    ensures var out := RewriteModel(body, requested, upstream, field);
            var model, f, f' := FindField(out, boundary, isModel), FindField(body, boundary, other), FindField(out, boundary, other);
            if requested == upstream then out == body else
            && model.Some? && model.value.start <= model.value.end <= |out| && out[model.value.start..model.value.end] == upstream
            && (f.Some? && f.value != field ==>
                  && f'.Some? && f.value.start <= f.value.end <= |body| && f'.value.start <= f'.value.end <= |out|
                  && out[f'.value.start..f'.value.end] == body[f.value.start..f.value.end])
  {
    SpliceKeepsOtherBytes(body, boundary, isModel, isModel, field, upstream);
    SpliceKeepsOtherBytes(body, boundary, isModel, other, field, upstream);
  }
}
