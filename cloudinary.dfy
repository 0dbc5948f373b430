/** `ExtractPublicID` of internal/api/v1/cloudinary/cloudinary_service.go: the
    public id of an uploaded image is the part of the URL path after
    "/image/upload/" and the version segment, without the file extension. The
    function takes the URL's path; `UrlPath` below stands in for `url.Parse`.
    The folder argument of the Go function is never read, so it is not a
    parameter here. */
module Cloudinary {
  import opened Wrappers
  import opened AppErrors
  import Text

  const Marker: string := "/image/upload/"

  function ExtractPublicID(path: string): Result<string, Error>
  {
    var parts := Text.Split(path, Marker);
    if |parts| != 2 then Failure(Plain("invalid cloudinary url"))
    else IdAfterMarker(parts[1])
  }

  /** What follows the marker: the version segment up to the first '/' is
      dropped, and so is the extension of what remains. */
  function IdAfterMarker(rest: string): Result<string, Error>
  {
    match Text.IndexOf(rest, "/")
    case None => Failure(Plain("invalid cloudinary path"))
    case Some(k) =>
      var tail := rest[k + 1..];
      Success(Text.TrimSuffix(tail, Text.Ext(tail)))
  }

  /** The two ways extraction fails: the path does not split on the marker
      into exactly two parts, or what follows the marker has no '/' after
      the version segment. */
  lemma ExtractFailures(path: string)
    ensures ExtractPublicID(path) == Failure(Plain("invalid cloudinary url"))
      <==> |Text.Split(path, Marker)| != 2
    ensures ExtractPublicID(path) == Failure(Plain("invalid cloudinary path"))
      <==> |Text.Split(path, Marker)| == 2 && !Text.Contains(Text.Split(path, Marker)[1], "/")
    ensures ExtractPublicID(path).Success?
      <==> |Text.Split(path, Marker)| == 2 && Text.Contains(Text.Split(path, Marker)[1], "/")
  {
  }

  /** Where the marker ends in a path that splits into exactly two parts. */
  function RestAfterMarker(path: string): string
    requires |Text.Split(path, Marker)| == 2
  {
    Text.SplitTwoParts(path, Marker);
    path[Text.IndexOf(path, Marker).value + |Marker|..]
  }

  lemma SplitPieces(path: string)
    requires |Text.Split(path, Marker)| == 2
    ensures Text.IndexOf(path, Marker).Some?
    ensures var m := Text.IndexOf(path, Marker).value;
      && Text.Split(path, Marker) == [path[..m], RestAfterMarker(path)]
      && path == path[..m] + Marker + RestAfterMarker(path)
      && !Text.Contains(path[..m], Marker) && !Text.Contains(RestAfterMarker(path), Marker)
  {
    Text.SplitTwoParts(path, Marker);
    var m := Text.IndexOf(path, Marker).value;
    assert path == path[..m] + path[m..m + |Marker|] + path[m + |Marker|..];
  }

  lemma VersionPieces(rest: string, k: nat)
    requires Text.IndexOf(rest, "/") == Some(k)
    ensures k < |rest| && rest == rest[..k] + "/" + rest[k + 1..]
    ensures !Text.Contains(rest[..k], "/")
  {
    SlashSplit(rest, k);
    Text.NoneBeforeFirst(rest, "/", k);
  }

  lemma SlashSplit(rest: string, k: nat)
    requires Text.OccursAt(rest, "/", k)
    ensures k < |rest| && rest == rest[..k] + "/" + rest[k + 1..]
  {
    assert |"/"| == 1 && rest[k..k + 1] == "/";
    SliceAround(rest, k);
  }

  /** A successful extraction has seen two parts and read the id from the second. */
  lemma ExtractSuccess(path: string)
    requires ExtractPublicID(path).Success?
    ensures |Text.Split(path, Marker)| == 2
    ensures ExtractPublicID(path) == IdAfterMarker(RestAfterMarker(path))
  {
    SplitPieces(path);
    assert Text.Split(path, Marker)[1] == RestAfterMarker(path);
  }

  /** The id read after the marker, with the extension put back, is what
      follows the version segment's '/'. */
  lemma IdAfterMarkerValue(rest: string)
    requires IdAfterMarker(rest).Success?
    ensures Text.IndexOf(rest, "/").Some?
    ensures var tail := rest[Text.IndexOf(rest, "/").value + 1..];
      IdAfterMarker(rest).value + Text.Ext(tail) == tail
  {
    var k := Text.IndexOf(rest, "/").value;
    var tail := rest[k + 1..];
    assert IdAfterMarker(rest) == Success(Text.TrimSuffix(tail, Text.Ext(tail)));
    TrimExt(tail);
  }

  lemma TrimExt(tail: string)
    ensures Text.TrimSuffix(tail, Text.Ext(tail)) + Text.Ext(tail) == tail
  {
  }

  /** A successful extraction cuts the path into a prefix and the marker,
      neither followed by another marker, a version segment without '/',
      a '/', the public id and the extension of the final path element. */
  lemma ExtractDecomposition(path: string)
    requires ExtractPublicID(path).Success?
    ensures |Text.Split(path, Marker)| == 2 && Text.IndexOf(path, Marker).Some?
    ensures var m := Text.IndexOf(path, Marker).value;
      var rest := RestAfterMarker(path);
      Text.IndexOf(rest, "/").Some? &&
      var k := Text.IndexOf(rest, "/").value;
      var tail := rest[k + 1..];
      var id := ExtractPublicID(path).value;
      && !Text.Contains(path[..m], Marker) && !Text.Contains(rest, Marker)
      && !Text.Contains(rest[..k], "/")
      && path == path[..m] + Marker + rest[..k] + "/" + id + Text.Ext(tail)
      && id + Text.Ext(tail) == tail
  {
    ExtractSuccess(path);
    SplitPieces(path);
    var m := Text.IndexOf(path, Marker).value;
    var rest := RestAfterMarker(path);
    IdAfterMarkerValue(rest);
    var k := Text.IndexOf(rest, "/").value;
    VersionPieces(rest, k);
    Concat5(path, path[..m], rest, rest[..k], rest[k + 1..], ExtractPublicID(path).value, Text.Ext(rest[k + 1..]));
  }

  lemma SliceAround(rest: string, k: nat)
    requires k < |rest| && rest[k..k + 1] == "/"
    ensures rest == rest[..k] + "/" + rest[k + 1..]
  {
    assert rest == rest[..k] + rest[k..k + 1] + rest[k + 1..];
  }

  lemma Concat5(path: string, prefix: string, rest: string, version: string, tail: string, id: string, e: string)
    requires path == prefix + Marker + rest && rest == version + "/" + tail && id + e == tail
    ensures path == prefix + Marker + version + "/" + id + e
  {
  }

  /** A remainder with no extension is returned as it is once the version
      segment is dropped. */
  lemma NoExtensionKept(path: string)
    requires ExtractPublicID(path).Success?
    ensures |Text.Split(path, Marker)| == 2 && Text.IndexOf(RestAfterMarker(path), "/").Some?
    ensures var rest := RestAfterMarker(path);
      var tail := rest[Text.IndexOf(rest, "/").value + 1..];
      Text.Ext(tail) == "" ==> ExtractPublicID(path).value == tail
  {
    ExtractSuccess(path);
    var rest := RestAfterMarker(path);
    IdAfterMarkerValue(rest);
    var tail := rest[Text.IndexOf(rest, "/").value + 1..];
    if Text.Ext(tail) == "" {
      assert ExtractPublicID(path).value + "" == tail;
    }
  }

  const ExampleId: string := "shop/phone"
  const ExampleRest: string := "v17/" + ExampleId + ".png"
  const ExamplePath: string := "/d" + Marker + ExampleRest

  lemma ExampleSplit()
    ensures |Text.Split(ExamplePath, Marker)| == 2 && Text.Split(ExamplePath, Marker)[1] == ExampleRest
  {
    assert ExamplePath[1] == 'd' && Marker[0] == '/' && Marker[1] == 'i';
    assert !Text.OccursAt(ExamplePath, Marker, 0);
    assert !Text.OccursAt(ExamplePath, Marker, 1);
    Text.IndexOfAfter("/d", Marker, ExampleRest);
    assert forall i :: 0 <= i < |ExampleRest| ==> ExampleRest[i] != 'u';
    Text.MissingChar(ExampleRest, Marker, 'u');
    Text.SplitTwoParts(ExamplePath, Marker);
    assert ExamplePath[2 + |Marker|..] == ExampleRest;
  }

  lemma ExampleVersion()
    ensures Text.IndexOf(ExampleRest, "/") == Some(3) && ExampleRest[4..] == ExampleId + ".png"
  {
    assert ExampleRest == "v17" + "/" + (ExampleId + ".png");
    Text.IndexOfCharAfter("v17", '/', ExampleId + ".png");
  }

  /** The path of https://res.cloudinary.com/d/image/upload/v17/shop/phone.png
      gives the public id "shop/phone": the version segment and the extension
      go, the folder stays. */
  lemma ExtractExample()
    ensures ExtractPublicID("/d" + Marker + "v17/" + "shop/phone" + ".png") == Success("shop/phone")
  {
    assert "/d" + Marker + "v17/" + "shop/phone" + ".png" == ExamplePath;
    ExampleSplit();
    ExampleVersion();
    Text.ExtOfSuffix(ExampleId, ".png");
    ExtractOf(ExamplePath, ExampleRest, 3, ExampleId + ".png");
  }

  lemma ExtractOf(path: string, rest: string, k: nat, tail: string)
    requires |Text.Split(path, Marker)| == 2 && Text.Split(path, Marker)[1] == rest
    requires Text.IndexOf(rest, "/") == Some(k) && k < |rest| && rest[k + 1..] == tail
    ensures ExtractPublicID(path) == Success(Text.TrimSuffix(tail, Text.Ext(tail)))
  {
  }

  /** The path component of a URL as `url.Parse` reports it, for absolute
      URLs of the form scheme://host/path?query#fragment and for bare paths. */
  function UrlPath(url: string): string
  {
    var noFragment := match Text.IndexOf(url, "#") case Some(i) => url[..i] case None => url;
    var noQuery := match Text.IndexOf(noFragment, "?") case Some(i) => noFragment[..i] case None => noFragment;
    match Text.IndexOf(noQuery, "://")
    case None => noQuery
    case Some(i) =>
      var afterScheme := noQuery[i + 3..];
      match Text.IndexOf(afterScheme, "/")
      case Some(j) => afterScheme[j..]
      case None => ""
  }
}
