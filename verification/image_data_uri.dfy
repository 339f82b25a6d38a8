/**
 * `ImageDataURI`: turns a local image reference into a self-contained
 * `data:` URI for HTML export. Remote, `data:` and `mailto:` sources are left
 * alone; a local file is used only when its extension is a known image type
 * and it can be read. Path resolution, file reading and base64 encoding are
 * the platform's and come in as parameters.
 */
module ImageDataUri {
  import opened Wrappers
  import opened Strings

  /** The image extensions served, with their MIME types. */
  const MimeTypes: map<string, string> := map[
    "png" := "image/png",
    "jpg" := "image/jpeg",
    "jpeg" := "image/jpeg",
    "gif" := "image/gif",
    "svg" := "image/svg+xml",
    "webp" := "image/webp"
  ]

  /** The MIME type for a file extension, whatever its case. */
  function MimeFor(ext: string): (r: Option<string>)
    ensures r.Some? <==> Lower(ext) in MimeTypes
    ensures r.Some? ==> r.value == MimeTypes[Lower(ext)]
  {
    var e := Lower(ext);
    if e in MimeTypes then Some(MimeTypes[e]) else None
  }

  lemma MimeKeys()
    ensures MimeTypes.Keys == {"png", "jpg", "jpeg", "gif", "svg", "webp"}
  {
  }

  /** Every known type is an image type without parameters, and the keys are lower-case. */
  lemma MimeTypesAreImages()
    ensures |MimeTypes| == 6
    ensures forall e :: e in MimeTypes ==> StartsWith(MimeTypes[e], "image/") && ';' !in MimeTypes[e]
    ensures MimeTypes["jpg"] == MimeTypes["jpeg"]
    ensures forall e :: e in MimeTypes ==> Lower(e) == e
  {
    MimeKeys();
    forall e | e in MimeTypes
      ensures StartsWith(MimeTypes[e], "image/") && ';' !in MimeTypes[e] && Lower(e) == e
    {
      ImageType(e);
    }
  }

  lemma ImageType(e: string)
    requires e in MimeTypes
    ensures StartsWith(MimeTypes[e], "image/") && ';' !in MimeTypes[e] && Lower(e) == e
  {
    MimeKeys();
    assert forall i :: 0 <= i < |e| ==> 'a' <= e[i] <= 'z';
  }

  /** `isExternal`: a remote, `data:` or `mailto:` reference, compared without case. */
  predicate IsExternal(source: string) {
    var lower := Lower(source);
    StartsWith(lower, "http://") || StartsWith(lower, "https://")
      || StartsWith(lower, "data:") || StartsWith(lower, "mailto:")
  }

  lemma LowerUpperChar(c: char)
    ensures LowerChar(UpperChar(c)) == LowerChar(c)
  {
  }

  /** Lower-casing forgets the case it was given. */
  lemma LowerOfUpper(s: string)
    ensures Lower(Upper(s)) == Lower(s)
  {
    forall i | 0 <= i < |s|
      ensures Lower(Upper(s))[i] == Lower(s)[i]
    {
      LowerUpperChar(s[i]);
    }
  }

  /** Whether a source is external does not depend on its case. */
  lemma ExternalIgnoresCase(source: string)
    ensures IsExternal(Upper(source)) == IsExternal(source)
  {
    LowerOfUpper(source);
  }

  /** Only `:` lower-cases to `:`. */
  lemma LowerColon(s: string, i: nat)
    requires i < |s| && Lower(s)[i] == ':'
    ensures s[i] == ':'
  {
  }

  /** Every external source names a scheme: a reference without `:` (a path) is never external. */
  lemma ExternalHasScheme(source: string)
    requires IsExternal(source)
    ensures ':' in source
  {
    var lower := Lower(source);
    var i: nat;
    if StartsWith(lower, "http://") {
      assert lower[..7][4] == ':';
      i := 4;
    } else if StartsWith(lower, "https://") {
      assert lower[..8][5] == ':';
      i := 5;
    } else if StartsWith(lower, "data:") {
      assert lower[..5][4] == ':';
      i := 4;
    } else {
      assert lower[..7][6] == ':';
      i := 6;
    }
    LowerColon(source, i);
  }

  /** Mixed-case schemes are external; plain paths are not. */
  lemma ExternalExamples()
    ensures IsExternal("Https://Example.com")
    ensures !IsExternal("images/photo.png") && !IsExternal("/usr/local/img.png")
  {
    assert Lower("Https://Example.com")[..8] == "https://";
    if IsExternal("images/photo.png") {
      ExternalHasScheme("images/photo.png");
    }
    if IsExternal("/usr/local/img.png") {
      ExternalHasScheme("/usr/local/img.png");
    }
  }

  /** The platform services `encode` relies on. */
  datatype Files = Files(
    /** The source resolved against the directory of the base URL, standardized. */
    resolve: (string, string) -> string,
    /** A path's extension as the platform sees it. */
    extension: string -> string,
    /** The file's bytes, if it can be read. */
    read: string -> Option<seq<bv8>>,
    /** Base64 text of some bytes. */
    base64: seq<bv8> -> string)

  const DataScheme := "data:"
  const Base64Marker := ";base64,"

  /** A base64 `data:` URI. */
  function DataUri(mime: string, payload: string): string {
    DataScheme + mime + Base64Marker + payload
  }

  /** `encode(source:baseURL:)`: a data URI for a readable local image, else nothing. */
  function Encode(source: string, baseUrl: string, fs: Files): (r: Option<string>)
    ensures IsExternal(source) ==> r == None
    ensures r.Some? ==> StartsWith(r.value, "data:image/")
  {
    if IsExternal(source) then None
    else
      var resolved := fs.resolve(baseUrl, source);
      match MimeFor(fs.extension(resolved))
      case None => None
      case Some(mime) =>
        match fs.read(resolved)
        case None => None
        case Some(data) =>
          MimeTypesAreImages();
          DataUriStart(mime, fs.base64(data));
          Some(DataUri(mime, fs.base64(data)))
  }

  lemma DataUriStart(mime: string, payload: string)
    requires StartsWith(mime, "image/")
    ensures StartsWith(DataUri(mime, payload), "data:image/")
  {
    Regroup(DataScheme, mime, Base64Marker, payload);
    assert DataUri(mime, payload)[..11] == DataScheme + mime[..6];
  }

  /** Regrouping four pieces, stated once so the literal pieces need not be reassociated in place. */
  lemma Regroup(a: string, b: string, c: string, d: string)
    ensures a + b + c + d == a + (b + (c + d))
  {
  }

  /** Reads a base64 data URI back into its MIME type and payload. */
  function ParseDataUri(s: string): (r: Option<(string, string)>)
    ensures r.Some? ==> s == DataUri(r.value.0, r.value.1) && ';' !in r.value.0
  {
    if !StartsWith(s, DataScheme) then None
    else
      var rest := s[|DataScheme|..];
      if ';' !in rest then None
      else
        var i := IndexOf(rest, ';');
        var tail := rest[i..];
        if StartsWith(tail, Base64Marker) then
          ParseParts(s, rest, i);
          Some((rest[..i], tail[|Base64Marker|..]))
        else None
  }

  lemma ParseParts(s: string, rest: string, i: nat)
    requires StartsWith(s, DataScheme) && rest == s[|DataScheme|..]
    requires i <= |rest| && StartsWith(rest[i..], Base64Marker)
    ensures s == DataUri(rest[..i], rest[i..][|Base64Marker|..])
  {
    StartsWithSplit(s, DataScheme);
    StartsWithSplit(rest[i..], Base64Marker);
    assert rest == rest[..i] + rest[i..];
    Regroup(DataScheme, rest[..i], Base64Marker, rest[i..][|Base64Marker|..]);
  }

  /** A data URI built from a parameterless type reads back as the type and payload it was built from. */
  lemma DataUriRoundTrip(mime: string, payload: string)
    requires ';' !in mime
    ensures ParseDataUri(DataUri(mime, payload)) == Some((mime, payload))
  {
    var s := DataUri(mime, payload);
    var tail := Base64Marker + payload;
    var rest := mime + tail;
    Regroup(DataScheme, mime, Base64Marker, payload);
    StartsWithAppend(DataScheme, rest);
    assert s[|DataScheme|..] == rest;
    assert rest[|mime|] == ';';
    assert rest[..|mime|] == mime;
    var i := IndexOf(rest, ';');
    assert i == |mime|;
    assert rest[i..] == tail;
    StartsWithAppend(Base64Marker, payload);
    assert tail[|Base64Marker|..] == payload;
  }

  /**
   * What `encode` produces, spelled out: nothing for an external source, an
   * unknown extension or an unreadable file, and otherwise the file's bytes
   * under the extension's MIME type, as a data URI that reads back to both.
   */
  lemma EncodeCases(source: string, baseUrl: string, fs: Files)
    ensures var resolved := fs.resolve(baseUrl, source);
      Encode(source, baseUrl, fs).Some? <==>
        (!IsExternal(source) && Lower(fs.extension(resolved)) in MimeTypes && fs.read(resolved).Some?)
    ensures var resolved := fs.resolve(baseUrl, source);
      Encode(source, baseUrl, fs).Some? ==>
        ParseDataUri(Encode(source, baseUrl, fs).value)
          == Some((MimeTypes[Lower(fs.extension(resolved))], fs.base64(fs.read(resolved).value)))
  {
    var resolved := fs.resolve(baseUrl, source);
    var e := Lower(fs.extension(resolved));
    if !IsExternal(source) && e in MimeTypes && fs.read(resolved).Some? {
      MimeTypesAreImages();
      DataUriRoundTrip(MimeTypes[e], fs.base64(fs.read(resolved).value));
    }
  }

  /**
   * The file is only looked at once the source is local and its extension
   * known: two file systems that differ only in what they would read give
   * the same answer for every other source.
   */
  lemma EncodeReadsOnlyImages(source: string, baseUrl: string, fs: Files, read: string -> Option<seq<bv8>>)
    requires IsExternal(source) || MimeFor(fs.extension(fs.resolve(baseUrl, source))).None?
    ensures Encode(source, baseUrl, fs) == Encode(source, baseUrl, fs.(read := read)) == None
  {
  }
}
