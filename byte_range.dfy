/**
 * The `Range` handling of `/stream`: the byte positions read from the request's
 * `Range` header and the `Content-Range` / `Content-Length` headers of the
 * 206 reply (byte ranges are defined in section 14.1.2 of RFC 9110, the `Range`
 * header in section 14.2 and `Content-Range` in section 14.4).
 */
module ByteRange {
  import opened JsText

  /** The three numbers and the `Content-Range` text the handler computes for a range request. */
  datatype PartialHeaders = PartialHeaders(start: JsNumber, end: JsNumber, contentLength: JsNumber, contentRange: string)

  function Minus(a: JsNumber, b: JsNumber): JsNumber
  {
    if a.Num? && b.Num? then Num(a.value - b.value) else NaN
  }

  function Plus(a: JsNumber, b: JsNumber): JsNumber
  {
    if a.Num? && b.Num? then Num(a.value + b.value) else NaN
  }

  /** `range.replace(/bytes=/, "").split("-")`. */
  function RangeParts(range: string): (parts: seq<string>)
    ensures |parts| >= 1
  {
    Split(ReplaceFirst(range, "bytes=", ""), '-')
  }

  /** The second number, or `contentLength - 1` when the range is open-ended. */
  function RangeEnd(parts: seq<string>, size: nat): JsNumber
  {
    if |parts| > 1 && parts[1] != "" then ParseInt(parts[1]) else Num(size - 1)
  }

  /** The headers for the parsed `[start, end]` pair of a range request on `size` bytes. */
  function HeadersOf(start: JsNumber, end: JsNumber, size: nat): PartialHeaders
  {
    PartialHeaders(start, end, Plus(Minus(end, start), Num(1)),
      RangeText(NumberToString(start), NumberToString(end), size))
  }

  /** The handler's range arithmetic as written: no check against the length of the audio. */
  function PartialHeadersFor(range: string, size: nat): (r: PartialHeaders)
    ensures r.contentLength.Num? <==> r.start.Num? && r.end.Num?
    ensures r.contentLength.Num? ==> r.contentLength.value == r.end.value - r.start.value + 1
  {
    var parts := RangeParts(range);
    HeadersOf(ParseInt(parts[0]), RangeEnd(parts, size), size)
  }

  /**
   * As written, a range with an explicit end announces the same start, end and
   * length whatever the size of the audio is: the size is never consulted.
   */
  lemma ExplicitEndIgnoresSize(range: string, size1: nat, size2: nat)
    requires |RangeParts(range)| > 1 && RangeParts(range)[1] != ""
    ensures PartialHeadersFor(range, size1).start == PartialHeadersFor(range, size2).start
    ensures PartialHeadersFor(range, size1).end == PartialHeadersFor(range, size2).end
    ensures PartialHeadersFor(range, size1).contentLength == PartialHeadersFor(range, size2).contentLength
  {
  }

  /** The `Range` header a client sends for bytes `first` to `last`. */
  function ClosedRangeHeader(first: nat, last: nat): string
  {
    "bytes=" + NatToString(first) + "-" + NatToString(last)
  }

  /** The `Range` header a client sends for everything from byte `first` on. */
  function OpenRangeHeader(first: nat): string
  {
    "bytes=" + NatToString(first) + "-"
  }

  /** The `Content-Range` text `bytes <start>-<end>/<size>`. */
  function RangeText(start: string, end: string, size: nat): string
  {
    "bytes " + start + "-" + end + "/" + NatToString(size)
  }

  /** The header text `bytes first-last/size`. */
  function ContentRangeText(first: nat, last: nat, size: nat): string
  {
    RangeText(NatToString(first), NatToString(last), size)
  }

  /** Replacing a leading occurrence of `p` by nothing strips it. */
  lemma StripLeading(p: string, x: string)
    requires |p| > 0
    ensures ReplaceFirst(p + x, p, "") == x
  {
    var h := p + x;
    assert h[..|p|] == p;
    assert h[|p|..] == x;
  }

  /** Stripping the leading `bytes=` and splitting at `-` recovers the two numerals. */
  lemma PartsOfHeader(a: string, b: string)
    requires AllDigits(a) && AllDigits(b)
    ensures RangeParts("bytes=" + a + "-" + b) == [a, b]
  {
    var rest := a + "-" + b;
    assert "bytes=" + a + "-" + b == "bytes=" + rest;
    StripLeading("bytes=", rest);
    var parts: seq<string> := [a, b];
    assert Join(parts, '-') == rest by {
      assert parts[1..] == [b];
    }
    forall i, j | 0 <= i < |parts| && 0 <= j < |parts[i]| ensures parts[i][j] != '-' {
      assert IsDigit(parts[i][j]);
    }
    SplitJoin(parts, '-');
  }

  /** `parseInt(String(n), 10) === n` for a numeral standing alone. */
  lemma ParseNumeral(n: nat)
    ensures ParseInt(NatToString(n)) == Num(n)
  {
    ParseIntDecimal(n, "");
    assert NatToString(n) + "" == NatToString(n);
  }

  lemma ClosedParts(first: nat, last: nat)
    ensures RangeParts(ClosedRangeHeader(first, last)) == [NatToString(first), NatToString(last)]
  {
    PartsOfHeader(NatToString(first), NatToString(last));
  }

  lemma OpenParts(first: nat)
    ensures RangeParts(OpenRangeHeader(first)) == [NatToString(first), ""]
  {
    PartsOfHeader(NatToString(first), "");
    assert "bytes=" + NatToString(first) + "-" + "" == OpenRangeHeader(first);
  }

  /** The headers once the two parts of the range are known to be numerals. */
  lemma HeadersOfParts(range: string, size: nat, first: nat, last: int)
    requires RangeParts(range)[0] == NatToString(first)
    requires RangeEnd(RangeParts(range), size) == Num(last)
    ensures PartialHeadersFor(range, size)
         == PartialHeaders(Num(first), Num(last), Num(last - first + 1),
              RangeText(NatToString(first), IntToString(last), size))
  {
    var parts := RangeParts(range);
    ParseNumeral(first);
    assert PartialHeadersFor(range, size) == HeadersOf(Num(first), Num(last), size);
    HeadersOfNumerals(first, last, size);
  }

  lemma HeadersOfNumerals(first: nat, last: int, size: nat)
    ensures HeadersOf(Num(first), Num(last), size)
         == PartialHeaders(Num(first), Num(last), Num(last - first + 1),
              RangeText(NatToString(first), IntToString(last), size))
  {
    assert NumberToString(Num(first)) == NatToString(first);
  }

  /** The numbers a header `bytes=first-last` is read as. */
  lemma ClosedValues(first: nat, last: nat, size: nat)
    ensures RangeParts(ClosedRangeHeader(first, last))[0] == NatToString(first)
    ensures ParseInt(RangeParts(ClosedRangeHeader(first, last))[0]) == Num(first)
    ensures RangeEnd(RangeParts(ClosedRangeHeader(first, last)), size) == Num(last)
  {
    var parts := RangeParts(ClosedRangeHeader(first, last));
    ClosedParts(first, last);
    ParseNumeral(first);
    ClosedEnd(parts, last, size);
  }

  /** A second part holding a numeral is the end it reads as. */
  lemma ClosedEnd(parts: seq<string>, last: nat, size: nat)
    requires |parts| == 2 && parts[1] == NatToString(last)
    ensures RangeEnd(parts, size) == Num(last)
  {
    ParseNumeral(last);
  }

  /** The numbers a header `bytes=first-` is read as. */
  lemma OpenValues(first: nat, size: nat)
    ensures RangeParts(OpenRangeHeader(first))[0] == NatToString(first)
    ensures RangeEnd(RangeParts(OpenRangeHeader(first)), size) == Num(size - 1)
  {
    OpenParts(first);
  }

  /** `bytes=first-last` gives start `first`, end `last` and `last - first + 1` bytes. */
  lemma ClosedRange(first: nat, last: nat, size: nat)
    ensures PartialHeadersFor(ClosedRangeHeader(first, last), size)
         == PartialHeaders(Num(first), Num(last), Num(last - first + 1), ContentRangeText(first, last, size))
  {
    ClosedValues(first, last, size);
    HeadersOfParts(ClosedRangeHeader(first, last), size, first, last);
  }

  /** `bytes=first-` runs to the last byte: end `size - 1`, and `size - first` bytes. */
  lemma OpenRange(first: nat, size: nat)
    ensures PartialHeadersFor(OpenRangeHeader(first), size)
         == PartialHeaders(Num(first), Num(size - 1), Num(size - first),
              RangeText(NatToString(first), IntToString(size - 1), size))
  {
    OpenValues(first, size);
    HeadersOfParts(OpenRangeHeader(first), size, first, size - 1);
  }

  /** Finding, as written: a range past the end of a 1000-byte stream is echoed, claiming 2000 bytes. */
  lemma RangePastEndAsWritten(range: string)
    requires range == "bytes=0-1999"
    ensures PartialHeadersFor(range, 1000).contentLength == Num(2000)
    ensures PartialHeadersFor(range, 1000).contentRange == ContentRangeText(0, 1999, 1000)
  {
    NineteenNinetyNine();
    assert range == ClosedRangeHeader(0, 1999);
    ClosedRange(0, 1999, 1000);
  }

  lemma NineteenNinetyNine()
    ensures ClosedRangeHeader(0, 1999) == "bytes=0-1999"
  {
    assert NatToString(19) == NatToString(1) + ['9'];
    assert NatToString(199) == NatToString(19) + ['9'];
    assert NatToString(1999) == NatToString(199) + ['9'];
  }

  /** The reply to a range request once the positions are checked against the length. */
  datatype RangeReply =
    | Satisfiable(first: nat, last: nat, contentLength: nat, contentRange: string)
    | Unsatisfiable(contentRange: string)

  /**
   * The corrected range arithmetic: the same parsing, with the last position
   * clamped to `size - 1` (section 14.1.2 of RFC 9110), a suffix range `bytes=-n`
   * read as the last `n` bytes, and a range that selects nothing reported as
   * unsatisfiable with `Content-Range: bytes *\/size` (section 14.4).
   */
  function ResolveRange(range: string, size: nat): (r: RangeReply)
    ensures r.Satisfiable? ==>
      && r.first <= r.last < size
      && r.contentLength == r.last - r.first + 1
      && r.contentRange == ContentRangeText(r.first, r.last, size)
    ensures r.Unsatisfiable? ==> r.contentRange == "bytes */" + NatToString(size)
  {
    var parts := RangeParts(range);
    Resolve(ParseInt(parts[0]), RangeEnd(parts, size), IsSuffix(parts), size)
  }

  /** The range names no first byte, only a count: `bytes=-n`. */
  predicate IsSuffix(parts: seq<string>)
    requires |parts| >= 1
  {
    Trim(parts[0]) == "" && |parts| > 1 && parts[1] != ""
  }

  /** The reply for the parsed positions of a range on `size` bytes. */
  function Resolve(start: JsNumber, end: JsNumber, suffix: bool, size: nat): (r: RangeReply)
    ensures r.Satisfiable? ==>
      && r.first <= r.last < size
      && r.contentLength == r.last - r.first + 1
      && r.contentRange == ContentRangeText(r.first, r.last, size)
    ensures r.Unsatisfiable? ==> r.contentRange == "bytes */" + NatToString(size)
  {
    if start.Num? && end.Num? && 0 <= start.value <= end.value && start.value < size then
      var last := if end.value < size then end.value else size - 1;
      Satisfiable(start.value, last, last - start.value + 1, ContentRangeText(start.value, last, size))
    else if start.NaN? && suffix && end.Num? && end.value > 0 && size > 0 then
      var first := if end.value < size then size - end.value else 0;
      Satisfiable(first, size - 1, size - first, ContentRangeText(first, size - 1, size))
    else
      Unsatisfiable("bytes */" + NatToString(size))
  }

  /** The correction changes nothing for a range that lies inside the stream. */
  lemma ResolveRangeAgrees(range: string, size: nat)
    requires var h := PartialHeadersFor(range, size);
      h.start.Num? && h.end.Num? && 0 <= h.start.value <= h.end.value < size
    ensures var h := PartialHeadersFor(range, size);
      ResolveRange(range, size)
        == Satisfiable(h.start.value, h.end.value, h.end.value - h.start.value + 1, h.contentRange)
  {
  }

  /** The corrected reply to `bytes=first-last`: clamped to the stream, or unsatisfiable. */
  lemma ResolveClosedRange(first: nat, last: nat, size: nat)
    ensures ResolveRange(ClosedRangeHeader(first, last), size)
         == if first <= last && first < size then
              var end := if last < size then last else size - 1;
              Satisfiable(first, end, end - first + 1, ContentRangeText(first, end, size))
            else Unsatisfiable("bytes */" + NatToString(size))
  {
    var h := ClosedRangeHeader(first, last);
    ClosedValues(first, last, size);
    var parts := RangeParts(h);
    assert ResolveRange(h, size) == Resolve(Num(first), Num(last), IsSuffix(parts), size);
    ResolveNumbers(first, last, IsSuffix(parts), size);
  }

  /** The corrected reply once both positions are numbers. */
  lemma ResolveNumbers(first: nat, last: nat, suffix: bool, size: nat)
    ensures Resolve(Num(first), Num(last), suffix, size)
         == if first <= last && first < size then
              var end := if last < size then last else size - 1;
              Satisfiable(first, end, end - first + 1, ContentRangeText(first, end, size))
            else Unsatisfiable("bytes */" + NatToString(size))
  {
  }

  /** The `Range` header a client sends for the last `n` bytes. */
  function SuffixRangeHeader(n: nat): string
  {
    "bytes=-" + NatToString(n)
  }

  lemma SuffixParts(n: nat)
    ensures RangeParts(SuffixRangeHeader(n)) == ["", NatToString(n)]
  {
    assert SuffixRangeHeader(n) == "bytes=" + "" + "-" + NatToString(n);
    PartsOfHeader("", NatToString(n));
  }

  /** Corrected: `bytes=-n` serves the last `n` bytes (all of them when `n` is larger). */
  lemma ResolveSuffixRange(n: nat, size: nat)
    requires n > 0 && size > 0
    ensures var first := if n < size then size - n else 0;
      ResolveRange(SuffixRangeHeader(n), size)
        == Satisfiable(first, size - 1, size - first, ContentRangeText(first, size - 1, size))
  {
    var h := SuffixRangeHeader(n);
    SuffixParts(n);
    ParseNumeral(n);
    var parts := RangeParts(h);
    assert ParseInt(parts[0]) == NaN;
    assert IsSuffix(parts);
    assert RangeEnd(parts, size) == Num(n);
    assert ResolveRange(h, size) == Resolve(NaN, Num(n), true, size);
    SuffixResolved(n, size);
  }

  lemma SuffixResolved(n: nat, size: nat)
    requires n > 0 && size > 0
    ensures var first := if n < size then size - n else 0;
      Resolve(NaN, Num(n), true, size)
        == Satisfiable(first, size - 1, size - first, ContentRangeText(first, size - 1, size))
  {
  }

  /** Corrected: the range past the end of a 1000-byte stream is cut to bytes 0-999. */
  lemma RangePastEndCorrected(range: string)
    requires range == "bytes=0-1999"
    ensures ResolveRange(range, 1000) == Satisfiable(0, 999, 1000, ContentRangeText(0, 999, 1000))
  {
    NineteenNinetyNine();
    ResolveClosedRange(0, 1999, 1000);
  }
}
