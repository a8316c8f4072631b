/**
  The image URL the product list shows (components/ImageList.js): a stored
  image path becomes an absolute URL, with the page's origin passed in.
*/
module ImageList {
  import opened Wrappers

  predicate StartsWith(s: string, prefix: string) {
    |prefix| <= |s| && s[..|prefix|] == prefix
  }

  /**
    The URL shown for `imagePath` on a page served from `origin`: none for a
    missing or empty path ("No image"), the path itself when it starts with
    "http", `origin + path` for a rooted path, and otherwise the path under
    `origin + "/uploads/"`.
  */
  function ImageUrl(imagePath: Option<string>, origin: string): (url: Option<string>)
    ensures url.None? <==> imagePath.None? || imagePath.value == ""
    ensures url.Some? && StartsWith(imagePath.value, "http") ==> url.value == imagePath.value
    ensures url.Some? && !StartsWith(imagePath.value, "http") ==>
      StartsWith(url.value, origin) && url.value[|origin|..] ==
        (if StartsWith(imagePath.value, "/") then imagePath.value else "/uploads/" + imagePath.value)
  {
    match imagePath
    case None => None
    case Some(p) =>
      if p == "" then None
      else if StartsWith(p, "http") then Some(p)
      else if StartsWith(p, "/") then Some(origin + p)
      else Some(origin + "/uploads/" + p)
  }

  /** Every URL shown ends with the stored path, so the path is never altered, only prefixed. */
  lemma UrlEndsWithPath(imagePath: string, origin: string)
    requires imagePath != ""
    ensures ImageUrl(Some(imagePath), origin).Some?
    ensures var url := ImageUrl(Some(imagePath), origin).value;
      |imagePath| <= |url| && url[|url| - |imagePath|..] == imagePath
  {
    var url := ImageUrl(Some(imagePath), origin).value;
    if !StartsWith(imagePath, "http") && !StartsWith(imagePath, "/") {
      assert url == (origin + "/uploads/") + imagePath;
    }
  }

  /**
    On a page whose origin starts with "http" (as every browser origin
    does), resolving a shown URL again gives the same URL.
  */
  lemma ResolveIdempotent(imagePath: string, origin: string)
    requires imagePath != "" && StartsWith(origin, "http")
    ensures ImageUrl(ImageUrl(Some(imagePath), origin), origin) == ImageUrl(Some(imagePath), origin)
  {
    var url := ImageUrl(Some(imagePath), origin).value;
    if !StartsWith(imagePath, "http") {
      assert url[..|origin|] == origin;
      assert url[..4] == origin[..4];
    }
  }

  /** A bare file name and the same name under "/uploads/" show the same image. */
  lemma UploadsAlias(name: string, origin: string)
    requires name != "" && !StartsWith(name, "http") && !StartsWith(name, "/")
    ensures ImageUrl(Some(name), origin) == ImageUrl(Some("/uploads/" + name), origin)
  {
    assert ("/uploads/" + name)[..1] == "/";
    assert ("/uploads/" + name)[..4] == "/upl";
    assert origin + "/uploads/" + name == origin + ("/uploads/" + name);
  }

  /**
    A file name that merely begins with the letters "http" is taken for an
    absolute URL: "httpd.png" is shown as "httpd.png", not under the origin.
  */
  lemma HttpNamedFileNotUploaded(origin: string)
    ensures ImageUrl(Some("httpd.png"), origin) == Some("httpd.png")
    ensures ImageUrl(Some("httpd.png"), origin) != Some(origin + "/uploads/" + "httpd.png")
  {
    assert "httpd.png"[..4] == "http";
    assert |origin + "/uploads/" + "httpd.png"| > |"httpd.png"|;
  }

  /** The path names an absolute web URL: it starts with a scheme "http://" or "https://". */
  predicate IsAbsoluteUrl(p: string) {
    StartsWith(p, "http://") || StartsWith(p, "https://")
  }

  /**
    The rule with the scheme checked in full: only "http://" and "https://"
    URLs are taken as they are; every other path is served from `origin`.
  */
  function ImageUrlByScheme(imagePath: Option<string>, origin: string): (url: Option<string>)
    ensures url.None? <==> imagePath.None? || imagePath.value == ""
    ensures url.Some? && IsAbsoluteUrl(imagePath.value) ==> url.value == imagePath.value
    ensures url.Some? && !IsAbsoluteUrl(imagePath.value) ==>
      StartsWith(url.value, origin) && url.value[|origin|..] ==
        (if StartsWith(imagePath.value, "/") then imagePath.value else "/uploads/" + imagePath.value)
  {
    match imagePath
    case None => None
    case Some(p) =>
      if p == "" then None
      else if IsAbsoluteUrl(p) then Some(p)
      else if StartsWith(p, "/") then Some(origin + p)
      else Some(origin + "/uploads/" + p)
  }

  /**
    With the full scheme check a file named "httpd.png" is served from the
    uploads folder; on every path that is a full URL or does not start with
    "http" both rules agree.
  */
  lemma SchemeRuleServesHttpNamedFile(imagePath: string, origin: string)
    ensures ImageUrlByScheme(Some("httpd.png"), origin) == Some(origin + "/uploads/" + "httpd.png")
    ensures IsAbsoluteUrl(imagePath) || !StartsWith(imagePath, "http") ==>
      ImageUrlByScheme(Some(imagePath), origin) == ImageUrl(Some(imagePath), origin)
  {
    assert "httpd.png"[..1][0] == 'h' && "/"[0] == '/';
    assert "httpd.png"[..7][4] == 'd' && "http://"[4] == ':';
    assert "httpd.png"[..8][4] == 'd' && "https://"[4] == 's';
    if IsAbsoluteUrl(imagePath) {
      if StartsWith(imagePath, "http://") {
        assert imagePath[..4] == "http://"[..4];
      } else {
        assert imagePath[..4] == "https://"[..4];
      }
    } else if StartsWith(imagePath, "/") {
      assert imagePath[..1] == "/";
      if |imagePath| >= 4 {
        assert imagePath[..4][..1] == "/";
      }
    } else if !StartsWith(imagePath, "http") {
      if |imagePath| >= 7 {
        assert imagePath[..7][..4] == imagePath[..4];
      }
      if |imagePath| >= 8 {
        assert imagePath[..8][..4] == imagePath[..4];
      }
    }
  }
}
