/**
 * Where the images come from (`get_images`, `_get_json_images`,
 * `_get_folder_images`).  The JSON-RPC call and the directory listing are
 * foreign: the model takes their answers as parameters and keeps only the
 * list comprehensions that filter them.  `xbmc.validatePath` is taken as the
 * identity on the folder's file paths.
 */
module Sources {
  import opened Prelude

  /** One library item of a JSON-RPC answer; `fanart` is absent when the item has no such key. */
  datatype Element = Element(fanart: Option<string>)

  /** A decoded JSON-RPC answer: the `result` object, when present, maps property names to item lists. */
  datatype Response = Response(result: Option<map<string, seq<Element>>>)

  /** `element.get('fanart')` is truthy: the key is there and its string is not empty. */
  predicate HasFanart(e: Element)
  {
    e.fanart.Some? && e.fanart.value != ""
  }

  /** The fanart strings of the items that carry a non-empty one, in item order. */
  function Fanarts(elements: seq<Element>): (r: seq<string>)
    ensures |r| <= |elements|
    ensures forall k :: 0 <= k < |r| ==> r[k] != ""
  {
    if elements == [] then []
    else
      var tail := Fanarts(elements[1..]);
      if HasFanart(elements[0]) then [elements[0].fanart.value] + tail else tail
  }

  /** The filter works item by item: filtering a concatenation concatenates the filtered parts. */
  lemma {:induction false} FanartsAppend(a: seq<Element>, b: seq<Element>)
    ensures Fanarts(a + b) == Fanarts(a) + Fanarts(b)
    decreases |a|
  {
    if a != [] {
      assert (a + b)[0] == a[0] && (a + b)[1..] == a[1..] + b;
      FanartsAppend(a[1..], b);
      var head := if HasFanart(a[0]) then [a[0].fanart.value] else [];
      assert Fanarts(a + b) == head + Fanarts(a[1..] + b);
      assert Fanarts(a) == head + Fanarts(a[1..]);
    } else {
      assert a + b == b;
    }
  }

  /** Some item carries s as its non-empty fanart. */
  predicate Carries(elements: seq<Element>, s: string)
  {
    exists k :: 0 <= k < |elements| && HasFanart(elements[k]) && elements[k].fanart.value == s
  }

  /** A string is kept exactly when some item carries it as non-empty fanart. */
  lemma {:induction false} FanartsMembers(elements: seq<Element>, s: string)
    ensures s in Fanarts(elements) <==> Carries(elements, s)
    decreases |elements|
  {
    if elements != [] {
      FanartsMembers(elements[1..], s);
      if s in Fanarts(elements[1..]) {
        var k :| 0 <= k < |elements[1..]| && HasFanart(elements[1..][k]) && elements[1..][k].fanart.value == s;
        assert elements[k + 1] == elements[1..][k];
      }
      forall k | 1 <= k < |elements| && HasFanart(elements[k]) && elements[k].fanart.value == s
        ensures s in Fanarts(elements[1..])
      {
        assert elements[1..][k - 1] == elements[k];
      }
    }
  }

  /** The item list the answer's result holds under prop; empty when the result or the key is missing. */
  function Items(response: Response, prop: string): seq<Element>
  {
    match response.result
    case None => []
    case Some(m) => if prop in m then m[prop] else []
  }

  /** `_get_json_images`: the non-empty fanart of the items listed under `prop`, in order. */
  function JsonImages(response: Response, prop: string): (r: seq<string>)
    ensures response.result.None? ==> r == []
    ensures forall s :: s in r <==> Carries(Items(response, prop), s)
  {
    var items := Items(response, prop);
    FanartsMembers(items, "");
    forall s { FanartsMembers(items, s); }
    Fanarts(items)
  }

  /** `str.lower()` on one character; only the ASCII letters A-Z are folded. */
  function LowerChar(c: char): char
  {
    if 'A' <= c <= 'Z' then (c as int + 32) as char else c
  }

  /** `str.lower()`: LowerChar on every character. */
  function Lower(s: string): string
  {
    seq(|s|, k requires 0 <= k < |s| => LowerChar(s[k]))
  }

  /** The slice `s[-3:]`: the last three characters, or all of s when it is shorter. */
  function LastThree(s: string): (r: string)
    ensures |r| == if |s| < 3 then |s| else 3
    ensures r == s[|s| - |r|..]
  {
    if |s| <= 3 then s else s[|s| - 3..]
  }

  /**
   * The file filter of a folder listing: the last three characters of the
   * lower-cased name spell jpg or png, so the name has at least three.
   */
  predicate IsImageName(f: string): (b: bool)
    ensures b ==> |f| >= 3
  {
    LastThree(Lower(f)) == "jpg" || LastThree(Lower(f)) == "png"
  }

  /**
   * The folder test reads as "the name ends in jpg or png, in any case":
   * a name shorter than three characters never passes, and only the last
   * three characters matter.
   */
  lemma ImageNameSuffix(f: string)
    ensures IsImageName(f) <==> |f| >= 3 && (Lower(f[|f| - 3..]) == "jpg" || Lower(f[|f| - 3..]) == "png")
  {
    if |f| >= 3 {
      assert LastThree(Lower(f)) == Lower(f[|f| - 3..]);
    } else {
      assert |LastThree(Lower(f))| < 3;
    }
  }

  /** The image files of a folder listing, in listing order, each prefixed with the folder path. */
  function FolderImages(path: string, files: seq<string>): (r: seq<string>)
    ensures |r| <= |files|
  {
    if files == [] then []
    else
      Kept(path, files[0]) + FolderImages(path, files[1..])
  }

  /** What the comprehension contributes for one file name. */
  function Kept(path: string, f: string): (r: seq<string>)
    ensures |r| <= 1
  {
    if IsImageName(f) then [path + f] else []
  }

  lemma {:induction false} FolderImagesAppend(path: string, a: seq<string>, b: seq<string>)
    ensures FolderImages(path, a + b) == FolderImages(path, a) + FolderImages(path, b)
    decreases |a|
  {
    if a != [] {
      assert (a + b)[0] == a[0] && (a + b)[1..] == a[1..] + b;
      FolderImagesAppend(path, a[1..], b);
      assert FolderImages(path, a + b) == Kept(path, a[0]) + FolderImages(path, a[1..] + b);
    } else {
      assert a + b == b;
    }
  }

  /** The folder listing keeps exactly the image files, each prefixed with the folder path. */
  lemma {:induction false} FolderImagesMembers(path: string, files: seq<string>, f: string)
    ensures path + f in FolderImages(path, files) <==> exists k :: 0 <= k < |files| && files[k] == f && IsImageName(f)
    decreases |files|
  {
    if files != [] {
      FolderImagesMembers(path, files[1..], f);
      if path + f in FolderImages(path, files[1..]) {
        var k :| 0 <= k < |files[1..]| && files[1..][k] == f && IsImageName(f);
        assert files[k + 1] == f;
      }
      forall k | 1 <= k < |files| && files[k] == f && IsImageName(f)
        ensures path + f in FolderImages(path, files[1..])
      {
        assert files[1..][k - 1] == f;
      }
      if path + files[0] == path + f {
        assert files[0] == (path + files[0])[|path|..] == (path + f)[|path|..] == f;
      }
    }
  }

  /** The SOURCES tuple: which library or folder the images are read from. */
  datatype Source = MovieFanart | ImageFolder | ArtistFanart | AlbumFanart

  const Sources: seq<Source> := [MovieFanart, ImageFolder, ArtistFanart, AlbumFanart]

  /** The JSON-RPC method and the answer's property name for a library source. */
  function Query(source: Source): (string, string)
    requires source != ImageFolder
  {
    match source
    case MovieFanart => ("VideoLibrary.GetMovies", "movies")
    case ArtistFanart => ("AudioLibrary.GetArtists", "artists")
    case AlbumFanart => ("AudioLibrary.GetAlbums", "albums")
  }

  /**
   * `get_images`: `SOURCES[int(setting)]` picks the source (IndexError when
   * the index is out of range); `response` is the answer to that source's
   * query, `path` and `files` the folder setting and its listing.
   */
  function GetImages(setting: int, response: Response, path: string, files: seq<string>): (r: Result<seq<string>, Exception>)
    ensures r.Err? <==> !(-4 <= setting < 4)
    ensures r.Err? ==> r.error == IndexError
    ensures (setting == 1 || setting == -3) ==> r == Ok(FolderImages(path, files))
    ensures (setting == 0 || setting == -4) ==> r == Ok(JsonImages(response, "movies"))
    ensures (setting == 2 || setting == -2) ==> r == Ok(JsonImages(response, "artists"))
    ensures (setting == 3 || setting == -1) ==> r == Ok(JsonImages(response, "albums"))
  {
    match PyIndex(Sources, setting)
    case None => Err(IndexError)
    case Some(source) =>
      if source == ImageFolder then Ok(FolderImages(path, files))
      else Ok(JsonImages(response, Query(source).1))
  }
}
