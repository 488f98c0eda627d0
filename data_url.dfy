/** Turning the canvas's `data:` URL into the Blob that is uploaded: the
    MIME type comes from the header before the first comma, the payload is
    the second comma-separated field, decoded by the browser's base64
    decoder `atob` and copied byte by byte into a Uint8Array. */
module DataUrl {
  import opened Wrappers

  /** An element of a Uint8Array. */
  newtype Byte = x: int | 0 <= x < 256

  /** The exceptions the conversion can raise. */
  datatype Error =
    | InvalidCharacterError   // atob rejected its argument
    | TypeError               // the header has no ':' so its second ':' field is undefined

  datatype Result<T> = Ok(value: T) | Err(error: Error)

  /** The bytes uploaded and the type they are labelled with. */
  datatype Blob = Blob(bytes: seq<Byte>, mimeType: string)

  /** The longest prefix of `s` without `c`: everything before the first `c`,
      or all of `s`. */
  function PrefixBefore(s: string, c: char): (p: string)
    ensures p <= s && c !in p
    ensures |p| < |s| ==> s[|p|] == c
  {
    if s == [] || s[0] == c then [] else [s[0]] + PrefixBefore(s[1..], c)
  }

  /** `s.split(sep)` for a one-character separator: the fields between
      separators, in order. */
  function Split(s: string, sep: char): (parts: seq<string>)
    ensures |parts| >= 1 && parts[0] == PrefixBefore(s, sep)
    ensures forall i :: 0 <= i < |parts| ==> sep !in parts[i]
    ensures |parts| >= 2 <==> sep in s
    ensures |parts| >= 2 ==> parts[1] == PrefixBefore(s[|parts[0]| + 1..], sep)
    decreases |s|
  {
    var head := PrefixBefore(s, sep);
    if |head| == |s| then [s] else [head] + Split(s[|head| + 1..], sep)
  }

  /** The fields put back together with the separator between them. */
  function Join(parts: seq<string>, sep: char): string
    requires |parts| >= 1
  {
    if |parts| == 1 then parts[0] else parts[0] + [sep] + Join(parts[1..], sep)
  }

  lemma JoinCons(head: string, sep: char, rest: seq<string>)
    requires |rest| >= 1
    ensures Join([head] + rest, sep) == head + [sep] + Join(rest, sep)
  {
  }

  /** Splitting loses nothing: joining the fields gives back the string. */
  lemma {:induction false} JoinSplit(s: string, sep: char)
    ensures Join(Split(s, sep), sep) == s
    decreases |s|
  {
    var head := PrefixBefore(s, sep);
    if |head| < |s| {
      var tail := s[|head| + 1..];
      assert Split(s, sep) == [head] + Split(tail, sep);
      JoinCons(head, sep, Split(tail, sep));
      JoinSplit(tail, sep);
      assert s == s[..|head|] + [s[|head|]] + tail;
    }
  }

  /** JavaScript indexing of an array: `parts[i]`, or undefined past the end. */
  function Field(parts: seq<string>, i: nat): (f: Option<string>)
    ensures f.Some? <==> i < |parts|
    ensures f.Some? ==> f.value == parts[i]
  {
    if i < |parts| then Some(parts[i]) else None
  }

  /** The text before the first comma. */
  function Header(dataUrl: string): string {
    Split(dataUrl, ',')[0]
  }

  /** `dataUrl.split(',')[1]`. */
  function Payload(dataUrl: string): (p: Option<string>)
    ensures p.Some? <==> ',' in dataUrl
    ensures p.Some? ==> ',' !in p.value
  {
    Field(Split(dataUrl, ','), 1)
  }

  /** What `atob` receives: JavaScript turns an undefined argument into the
      string "undefined". */
  function AtobArgument(payload: Option<string>): string {
    match payload
    case Some(s) => s
    case None => "undefined"
  }

  /** `dataUrl.split(',')[0].split(':')[1].split(';')[0]`; None when the second
      ':' field is undefined, where calling split on it throws. */
  function MimeType(dataUrl: string): Option<string> {
    MimeOfHeader(Header(dataUrl))
  }

  function MimeOfHeader(header: string): (m: Option<string>)
    ensures m.Some? <==> ':' in header
    ensures m.Some? ==> ';' !in m.value && ':' !in m.value
  {
    match Field(Split(header, ':'), 1)
    case None => None
    case Some(afterColon) => Some(Split(afterColon, ';')[0])
  }

  /** Storing a UTF-16 code unit into a Uint8Array keeps it modulo 256. */
  function CharCode(c: char): (b: Byte)
    ensures (c as int) < 256 ==> b as int == c as int
    ensures (b as int - c as int) % 256 == 0
  {
    ((c as int) % 256) as Byte
  }

  /** What dataUrlToBlob returns or throws, with `atob` given as a function
      that yields None where it throws. */
  function ToBlob(dataUrl: string, atob: string -> Option<string>): (r: Result<Blob>)
    ensures r == Err(InvalidCharacterError) <==> atob(AtobArgument(Payload(dataUrl))).None?
    ensures r == Err(TypeError) <==> atob(AtobArgument(Payload(dataUrl))).Some? && ':' !in Header(dataUrl)
    ensures r.Ok? ==>
      var byteString := atob(AtobArgument(Payload(dataUrl))).value;
      Some(r.value.mimeType) == MimeType(dataUrl) &&
      |r.value.bytes| == |byteString| &&
      forall i :: 0 <= i < |byteString| ==> r.value.bytes[i] == CharCode(byteString[i])
  {
    match atob(AtobArgument(Payload(dataUrl)))
    case None => Err(InvalidCharacterError)
    case Some(byteString) =>
      match MimeType(dataUrl)
      case None => Err(TypeError)
      case Some(mime) =>
        Ok(Blob(seq(|byteString|, i requires 0 <= i < |byteString| => CharCode(byteString[i])), mime))
  }

  /** The copy loop of dataUrlToBlob: a zero-filled Uint8Array as long as the
      decoded string, with every index set once, in order, to its char code. */
  method CopyCharCodes(byteString: string) returns (bytes: seq<Byte>)
    ensures |bytes| == |byteString|
    ensures forall i :: 0 <= i < |byteString| ==> bytes[i] == CharCode(byteString[i])
  {
    var ia := new Byte[|byteString|];
    for i := 0 to |byteString|
      invariant forall k :: 0 <= k < i ==> ia[k] == CharCode(byteString[k])
    {
      ia[i] := CharCode(byteString[i]);
    }
    bytes := ia[..];
  }

  /** dataUrlToBlob: decode the payload, then copy every char code of the
      decoded string into a fresh byte array of the same length. */
  method DataUrlToBlob(dataUrl: string, atob: string -> Option<string>) returns (r: Result<Blob>)
    ensures r == ToBlob(dataUrl, atob)
    ensures r == Err(InvalidCharacterError) <==> atob(AtobArgument(Payload(dataUrl))).None?
    ensures r == Err(TypeError) <==> atob(AtobArgument(Payload(dataUrl))).Some? && ':' !in Header(dataUrl)
    ensures r.Ok? ==>
      var byteString := atob(AtobArgument(Payload(dataUrl))).value;
      Some(r.value.mimeType) == MimeType(dataUrl) &&
      |r.value.bytes| == |byteString| &&
      forall i :: 0 <= i < |byteString| ==> r.value.bytes[i] == CharCode(byteString[i])
  {
    var decoded := atob(AtobArgument(Payload(dataUrl)));
    if decoded.None? {
      return Err(InvalidCharacterError);
    }
    var byteString := decoded.value;
    var mimeString := MimeType(dataUrl);
    if mimeString.None? {
      return Err(TypeError);
    }
    var bytes := CopyCharCodes(byteString);
    assert bytes == seq(|byteString|, i requires 0 <= i < |byteString| => CharCode(byteString[i]));
    r := Ok(Blob(bytes, mimeString.value));
  }

  /** The MIME type is the text right after the header's first ':', up to the
      next ';' or ':' or the end of the header. */
  lemma MimeAfterFirstColon(h: string)
    requires ':' in h
    ensures MimeOfHeader(h).Some?
    ensures var colon := |PrefixBefore(h, ':')|;
      var m := MimeOfHeader(h).value;
      colon < |h| && h[colon] == ':' && ':' !in h[..colon] &&
      m <= h[colon + 1..] && ';' !in m && ':' !in m &&
      (colon + 1 + |m| == |h| || h[colon + 1 + |m|] == ';' || h[colon + 1 + |m|] == ':')
  {
  }

  /** The payload is the text between the first and the second ',' (or the
      end); without a ',' it is undefined and atob receives "undefined". */
  lemma PayloadIsSecondField(dataUrl: string)
    ensures Payload(dataUrl).Some? <==> ',' in dataUrl
    ensures ',' !in dataUrl ==> AtobArgument(Payload(dataUrl)) == "undefined"
    ensures ',' in dataUrl ==>
      var comma := |Header(dataUrl)|;
      var p := Payload(dataUrl).value;
      comma < |dataUrl| && dataUrl[comma] == ',' && ',' !in dataUrl[..comma] &&
      p <= dataUrl[comma + 1..] && ',' !in p &&
      (comma + 1 + |p| == |dataUrl| || dataUrl[comma + 1 + |p|] == ',')
  {
  }

  /** The prefix is fixed by the position of the first separator. */
  lemma PrefixBeforeAt(s: string, c: char, k: nat)
    requires k <= |s| && c !in s[..k] && (k < |s| ==> s[k] == c)
    ensures PrefixBefore(s, c) == s[..k]
  {
  }

  /** A prefix free of `c` survives in the text before the first `c`. */
  lemma PrefixBeforeKeeps(s: string, c: char, t: string)
    requires t <= s && c !in t
    ensures t <= PrefixBefore(s, c)
  {
  }

  /** A URL `<header>,<payload>` splits back into its header and payload
      when neither holds a comma. */
  lemma SplitBuiltDataUrl(header: string, payload: string)
    requires ',' !in header && ',' !in payload
    ensures Header(header + "," + payload) == header
    ensures Payload(header + "," + payload) == Some(payload)
  {
    var url := header + "," + payload;
    assert url[..|header|] == header;
    PrefixBeforeAt(url, ',', |header|);
    var parts := Split(url, ',');
    assert url[|header|] == ',';
    assert url[|header| + 1..] == payload;
    PrefixBeforeAt(payload, ',', |payload|);
    assert parts[1] == payload;
  }

  /** The header `data:<type>;<params>` gives back <type> as MIME type. */
  lemma MimeOfBuiltHeader(mime: string, params: string)
    requires ':' !in mime && ';' !in mime
    ensures MimeOfHeader("data:" + mime + ";" + params) == Some(mime)
  {
    var header := "data:" + mime + ";" + params;
    assert header[..4] == "data";
    PrefixBeforeAt(header, ':', 4);
    var typed := mime + ";" + params;
    assert header[5..] == typed;
    PrefixBeforeKeeps(typed, ':', mime + ";");
    var afterColon := PrefixBefore(typed, ':');
    assert afterColon[..|mime| + 1] == mime + ";";
    var fields := Split(header, ':');
    assert header[4] == ':';
    assert fields[1] == afterColon;
    PrefixBeforeAt(afterColon, ';', |mime|);
    assert Split(afterColon, ';')[0] == mime;
  }

  /** The URL the canvas exports, `data:<type>;<params>,<payload>`, parses
      back into its parts: the MIME type is <type> and the payload is
      <payload>, whenever those hold no separator that would end them early. */
  lemma ParseBuiltDataUrl(mime: string, params: string, payload: string)
    requires ',' !in mime && ':' !in mime && ';' !in mime
    requires ',' !in params && ',' !in payload
    ensures var url := "data:" + mime + ";" + params + "," + payload;
      MimeType(url) == Some(mime) && Payload(url) == Some(payload)
  {
    var header := "data:" + mime + ";" + params;
    assert header + "," + payload == "data:" + mime + ";" + params + "," + payload;
    SplitBuiltDataUrl(header, payload);
    MimeOfBuiltHeader(mime, params);
  }
}
