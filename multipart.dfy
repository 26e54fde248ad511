/**
 * The `multipart/related` body built by `buildMultipart` in drive.js
 * (RFC 2387), with the delimiter and close-delimiter lines of section 5.1.1
 * of RFC 2046.
 *
 * `Body` is the specification of the serialised body, `BuildMultipart` is the
 * string-appending loop of the source proved equal to it, and `Parse` is an
 * independent reader of the format: `ParseBody` proves that reading a body
 * gives back the parts it was built from, and `BodyOfParse` that whatever the
 * reader accepts is exactly the body of what it returns.
 */
module Multipart {
  import opened Wrappers

  /** One body part: its `Content-Type` value and its content (`type` and `data` in the source). */
  datatype Part = Part(mediaType: string, data: string)

  /** What `buildMultipart` returns: the body and the value of the request's `Content-Type` header. */
  datatype MultipartBody = MultipartBody(data: string, contentType: string)

  /** The fixed boundary string of the source. */
  const Boundary: string := "-------314159265358979323846"
  const Crlf: string := "\r\n"
  const DashBoundary: string := "--" + Boundary
  /** The line that opens every part. */
  const Delimiter: string := DashBoundary + Crlf
  /** The line that ends the body. */
  const CloseDelimiter: string := DashBoundary + "--" + Crlf
  const ContentTypeHeader: string := "Content-Type: "
  /** Everything a part begins with, up to its media type. */
  const PartPrefix: string := Delimiter + ContentTypeHeader
  /** The empty line that ends a part's header. */
  const HeaderEnd: string := Crlf + Crlf
  /** What follows a part's content: the line break and the next boundary. */
  const PartEnd: string := Crlf + DashBoundary
  /** The `Content-Type` of the whole request. */
  const MultipartContentType: string := "multipart/related; boundary=" + Boundary

  /**
   * One part as it appears in the body: the delimiter line, the header line,
   * the empty line, the content and a line break.
   */
  function Encapsulation(p: Part): string {
    PartPrefix + (p.mediaType + (HeaderEnd + (p.data + Crlf)))
  }

  /** The encapsulations of all parts, in input order. */
  function Encapsulations(parts: seq<Part>): string {
    if parts == [] then "" else Encapsulation(parts[0]) + Encapsulations(parts[1..])
  }

  /** The whole body: every part in input order, then the close delimiter. */
  function Body(parts: seq<Part>): string {
    Encapsulations(parts) + CloseDelimiter
  }

  lemma Assoc(a: string, b: string, c: string)
    ensures (a + b) + c == a + (b + c)
  {
  }

  lemma {:induction false} EncapsulationsAppend(a: seq<Part>, b: seq<Part>)
    ensures Encapsulations(a + b) == Encapsulations(a) + Encapsulations(b)
  {
    if a == [] {
      assert a + b == b;
    } else {
      assert (a + b)[1..] == a[1..] + b;
      EncapsulationsAppend(a[1..], b);
      Assoc(Encapsulation(a[0]), Encapsulations(a[1..]), Encapsulations(b));
    }
  }

  /** The three pieces the loop appends for one part make up its encapsulation. */
  lemma AppendedPieces(p: Part)
    ensures (DashBoundary + Crlf) + (ContentTypeHeader + p.mediaType + Crlf + Crlf) + (p.data + Crlf)
            == Encapsulation(p)
  {
    var t, d := p.mediaType, p.data;
    Assoc(ContentTypeHeader, t, Crlf);
    Assoc(ContentTypeHeader, t + Crlf, Crlf);
    Assoc(t, Crlf, Crlf);
    Assoc(Delimiter, ContentTypeHeader, t + HeaderEnd);
    Assoc(Delimiter + ContentTypeHeader, t + HeaderEnd, d + Crlf);
    Assoc(t, HeaderEnd, d + Crlf);
  }

  /** With no parts the body is the close delimiter alone. */
  lemma EmptyBody()
    ensures Body([]) == "--" + Boundary + "--\r\n"
  {
  }

  /**
   * The body serialiser; mirrors the loop that appends three pieces per part.
   * Whatever the parts, the content type is `MultipartContentType`, that is
   * `multipart/related; boundary=-------314159265358979323846`.
   */
  method BuildMultipart(parts: seq<Part>) returns (body: MultipartBody)
    ensures body.data == Body(parts)
    ensures body.contentType == MultipartContentType
  {
    var data := "";
    for i := 0 to |parts|
      invariant data == Encapsulations(parts[..i])
    {
      ghost var before := data;
      data := data + (DashBoundary + Crlf);
      data := data + (ContentTypeHeader + parts[i].mediaType + Crlf + Crlf);
      data := data + (parts[i].data + Crlf);
      AppendedPieces(parts[i]);
      Assoc(before + (DashBoundary + Crlf), ContentTypeHeader + parts[i].mediaType + Crlf + Crlf, parts[i].data + Crlf);
      Assoc(before, DashBoundary + Crlf, (ContentTypeHeader + parts[i].mediaType + Crlf + Crlf) + (parts[i].data + Crlf));
      Assoc(DashBoundary + Crlf, ContentTypeHeader + parts[i].mediaType + Crlf + Crlf, parts[i].data + Crlf);
      assert Encapsulations([parts[i]]) == Encapsulation(parts[i]);
      assert parts[..i + 1] == parts[..i] + [parts[i]];
      EncapsulationsAppend(parts[..i], [parts[i]]);
    }
    assert parts[..|parts|] == parts;
    data := data + (DashBoundary + "--" + Crlf);
    body := MultipartBody(data, MultipartContentType);
  }

  // ---------------------------------------------------------------------
  // Reading a body back

  /** The position of the first occurrence of `pat` in `s`, if any. */
  function IndexOf(s: string, pat: string): (r: Option<nat>)
    ensures r.Some? ==> r.value + |pat| <= |s| && s[r.value..r.value + |pat|] == pat
    decreases |s|
  {
    if |s| < |pat| then None
    else if s[..|pat|] == pat then Some(0)
    else match IndexOf(s[1..], pat)
      case None => None
      case Some(i) => Some(i + 1)
  }

  /** When the first character of `pat` is absent from `x`, the first `pat` in `x + (pat + y)` starts right after `x`. */
  lemma {:induction false} IndexOfAfter(x: string, pat: string, y: string)
    requires pat != [] && pat[0] !in x
    ensures IndexOf(x + (pat + y), pat) == Some(|x|)
  {
    var s := x + (pat + y);
    if x == [] {
      assert s == pat + y;
      assert s[..|pat|] == pat;
    } else {
      assert s[0] != pat[0];
      assert s[..|pat|] != pat;
      assert s[1..] == x[1..] + (pat + y);
      IndexOfAfter(x[1..], pat, y);
    }
  }

  /** A string with `pat` at position `i` is what comes before it, `pat`, and what comes after it. */
  lemma SplitAt(x: string, i: nat, pat: string)
    requires i + |pat| <= |x| && x[i..i + |pat|] == pat
    ensures x == x[..i] + (pat + x[i + |pat|..])
  {
  }

  /**
   * Reads the part at the start of `s`: the prefix, the media type up to the
   * first empty line, the content up to the first line break followed by the
   * boundary. Returns the part and the rest of `s` from that boundary on.
   */
  function ParsePart(s: string): (r: Option<(Part, string)>)
    ensures r.Some? ==> |r.value.1| < |s|
    ensures r.Some? ==> s == PartPrefix + (r.value.0.mediaType + (HeaderEnd + (r.value.0.data + (Crlf + r.value.1))))
  {
    if |s| < |PartPrefix| || s[..|PartPrefix|] != PartPrefix then None
    else
      var afterPrefix := s[|PartPrefix|..];
      match IndexOf(afterPrefix, HeaderEnd)
      case None => None
      case Some(i) =>
        var afterHeader := afterPrefix[i + |HeaderEnd|..];
        match IndexOf(afterHeader, PartEnd)
        case None => None
        case Some(j) =>
          assert afterHeader[j..j + |Crlf|] == afterHeader[j..j + |PartEnd|][..|Crlf|];
          SplitAt(afterHeader, j, Crlf);
          SplitAt(afterPrefix, i, HeaderEnd);
          SplitAt(s, 0, PartPrefix);
          Some((Part(afterPrefix[..i], afterHeader[..j]), afterHeader[j + |Crlf|..]))
  }

  /** Reads a body: the close delimiter alone, or a part followed by a body. */
  function Parse(s: string): Option<seq<Part>>
    decreases |s|
  {
    if s == CloseDelimiter then Some([])
    else match ParsePart(s)
      case None => None
      case Some((p, next)) =>
        match Parse(next)
        case None => None
        case Some(rest) => Some([p] + rest)
  }

  /** A part that can be read back: no carriage return in its media type or content. */
  predicate Readable(p: Part) {
    '\r' !in p.mediaType && '\r' !in p.data
  }

  /** Every body, even an empty one, begins with the dash-boundary. */
  lemma BodyStart(parts: seq<Part>)
    ensures Body(parts) == DashBoundary + Body(parts)[|DashBoundary|..]
  {
    var s := Body(parts);
    if parts == [] {
      Assoc(DashBoundary, "--", Crlf);
    } else {
      var p := parts[0];
      var x := Crlf + ContentTypeHeader;
      var y := p.mediaType + (HeaderEnd + (p.data + Crlf));
      Assoc(DashBoundary, Crlf, ContentTypeHeader);
      Assoc(DashBoundary, x, y);
      Assoc(DashBoundary + (x + y), Encapsulations(parts[1..]), CloseDelimiter);
      Assoc(DashBoundary, x + y, Encapsulations(parts[1..]));
      Assoc(DashBoundary, (x + y) + Encapsulations(parts[1..]), CloseDelimiter);
    }
    assert s[..|DashBoundary|] == DashBoundary;
  }

  /** A non-empty body taken apart into the pieces `Parse` looks for. */
  lemma SplitFirstPart(parts: seq<Part>)
    requires parts != []
    ensures Body(parts) == PartPrefix + (parts[0].mediaType + (HeaderEnd + (parts[0].data
                           + (PartEnd + Body(parts[1..])[|DashBoundary|..]))))
  {
    var p, rest := parts[0], Body(parts[1..]);
    var tail := rest[|DashBoundary|..];
    BodyStart(parts[1..]);
    Assoc(Encapsulation(p), Encapsulations(parts[1..]), CloseDelimiter);
    Assoc(PartPrefix, p.mediaType + (HeaderEnd + (p.data + Crlf)), rest);
    Assoc(p.mediaType, HeaderEnd + (p.data + Crlf), rest);
    Assoc(HeaderEnd, p.data + Crlf, rest);
    Assoc(p.data, Crlf, rest);
    Assoc(Crlf, DashBoundary, tail);
  }

  /** Reading a readable part that is followed by a boundary gives that part and the rest from the boundary on. */
  lemma ParseOnePart(p: Part, tail: string)
    requires Readable(p)
    ensures ParsePart(PartPrefix + (p.mediaType + (HeaderEnd + (p.data + (PartEnd + tail)))))
            == Some((p, DashBoundary + tail))
  {
    var afterHeader := p.data + (PartEnd + tail);
    var afterPrefix := p.mediaType + (HeaderEnd + afterHeader);
    var s := PartPrefix + afterPrefix;
    assert s[..|PartPrefix|] == PartPrefix && s[|PartPrefix|..] == afterPrefix;
    IndexOfAfter(p.mediaType, HeaderEnd, afterHeader);
    assert afterPrefix[..|p.mediaType|] == p.mediaType;
    assert afterPrefix[|p.mediaType| + |HeaderEnd|..] == afterHeader;
    IndexOfAfter(p.data, PartEnd, tail);
    assert afterHeader[..|p.data|] == p.data;
    Assoc(Crlf, DashBoundary, tail);
    assert afterHeader[|p.data| + |Crlf|..] == DashBoundary + tail;
  }

  /** Reading a non-empty body gives its first part, then what the rest of the body reads as. */
  lemma ParseFirstPart(parts: seq<Part>)
    requires parts != [] && Readable(parts[0])
    ensures Parse(Body(parts)) == match Parse(Body(parts[1..]))
                                  case None => None
                                  case Some(rest) => Some([parts[0]] + rest)
  {
    var rest := Body(parts[1..]);
    SplitFirstPart(parts);
    BodyStart(parts[1..]);
    ParseOnePart(parts[0], rest[|DashBoundary|..]);
    assert |Body(parts)| > |CloseDelimiter|;
  }

  /** Round trip: reading the body of readable parts gives back those parts, in order. */
  lemma {:induction false} ParseBody(parts: seq<Part>)
    requires forall k :: 0 <= k < |parts| ==> Readable(parts[k])
    ensures Parse(Body(parts)) == Some(parts)
  {
    if parts != [] {
      var tail := parts[1..];
      assert Readable(parts[0]);
      ParseFirstPart(parts);
      assert forall k :: 0 <= k < |tail| ==> Readable(tail[k]) by {
        forall k | 0 <= k < |tail| ensures Readable(tail[k]) {
          assert tail[k] == parts[k + 1];
        }
      }
      ParseBody(tail);
      assert [parts[0]] + tail == parts;
    }
  }

  /** The body of a part followed by more parts, in the shape `Parse` reads it. */
  lemma BodyCons(p: Part, rest: seq<Part>)
    ensures Body([p] + rest) == PartPrefix + (p.mediaType + (HeaderEnd + (p.data + (Crlf + Body(rest)))))
  {
    var next := Body(rest);
    assert ([p] + rest)[0] == p && ([p] + rest)[1..] == rest;
    Assoc(Encapsulation(p), Encapsulations(rest), CloseDelimiter);
    Assoc(p.data, Crlf, next);
    Assoc(HeaderEnd, p.data + Crlf, next);
    Assoc(p.mediaType, HeaderEnd + (p.data + Crlf), next);
    Assoc(PartPrefix, p.mediaType + (HeaderEnd + (p.data + Crlf)), next);
  }

  /** The reader is exact: whatever it accepts is the body of the parts it returns. */
  lemma {:induction false} BodyOfParse(s: string, parts: seq<Part>)
    requires Parse(s) == Some(parts)
    ensures Body(parts) == s
    decreases |s|
  {
    if s != CloseDelimiter {
      var (p, next) := ParsePart(s).value;
      var rest := Parse(next).value;
      assert parts == [p] + rest;
      BodyOfParse(next, rest);
      BodyCons(p, rest);
    }
  }

  /** Readable part lists with the same body are the same list. */
  lemma BodyInjective(a: seq<Part>, b: seq<Part>)
    requires forall k :: 0 <= k < |a| ==> Readable(a[k])
    requires forall k :: 0 <= k < |b| ==> Readable(b[k])
    requires Body(a) == Body(b)
    ensures a == b
  {
    ParseBody(a);
    ParseBody(b);
  }
}
