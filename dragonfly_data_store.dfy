/**
 * `AlchemyCloudinary::DragonflyDataStore`: the Dragonfly data store that
 * keeps pictures on Cloudinary. A uid is `"{public_id}.{format}"`; the store
 * derives the Cloudinary key and format from it and delegates to the
 * Cloudinary client, whose calls are recorded here as requests.
 */
module DragonflyDataStore {
  import opened Wrappers
  import opened RubyCore

  /** A value of an options hash. */
  datatype Value = Str(s: string) | Num(n: int) | Flag(b: bool)

  /** An options hash, keyed by the symbol's name. */
  type OptionMap = map<string, Value>

  /** What Dragonfly hands to `write`: the file to upload and its original name. */
  datatype Content = Content(file: string, name: string)

  /** The fields of Cloudinary's upload response that `write` reads (`nil` when missing). */
  datatype UploadResult = UploadResult(publicId: Option<string>, format: Option<string>)

  /** The arguments of `Cloudinary::Utils.cloudinary_url(public_id, options)`. */
  datatype UrlArgs = UrlArgs(publicId: string, options: OptionMap)

  /** What `read` returns: the downloaded data and Dragonfly's metadata hash. */
  datatype ReadResult = ReadResult(data: seq<bv8>, meta: map<string, string>)

  /** A call into the Cloudinary client. */
  datatype Request =
    | UploadRequest(file: string, options: OptionMap)
    | DownloadRequest(url: UrlArgs)
    | DestroyRequest(publicId: string)

  /** Whether `s` is made of dots alone (the empty string included). */
  predicate OnlyDots(s: string) {
    forall i :: 0 <= i < |s| ==> s[i] == '.'
  }

  /** The number of dots `s` starts with. */
  function LeadingDots(s: string): (r: nat)
    ensures r <= |s|
    ensures forall i :: 0 <= i < r ==> s[i] == '.'
    ensures r == |s| || s[r] != '.'
  {
    if |s| == 0 || s[0] != '.' then 0 else 1 + LeadingDots(s[1..])
  }

  /**
   * `File.extname` of a bare file name: from the last dot that is not part
   * of the leading run of dots to the end, `"."` for a trailing dot, and
   * `""` when there is no such dot.
   */
  function ExtName(uid: string): (r: string)
    ensures r == "" <==> '.' !in uid[LeadingDots(uid)..]
    ensures r != "" ==> |r| < |uid| && uid[|uid| - |r|..] == r
    ensures r != "" ==> r[0] == '.' && '.' !in r[1..]
    ensures r != "" ==> !OnlyDots(uid[..|uid| - |r|])
  {
    var lead := LeadingDots(uid);
    match LastIndexOf(uid[lead..], '.')
    case None => ""
    case Some(i) =>
      assert uid[lead..][i] == uid[lead + i];
      assert uid[lead..][i + 1..] == uid[lead + i + 1..];
      assert !OnlyDots(uid[..lead + i]) by {
        assert i > 0;
        assert uid[..lead + i][lead] == uid[lead];
      }
      uid[lead + i..]
  }

  /**
   * `ext`: the extension with its dot when `withDot`, otherwise without it
   * (the first character removed in place); `""` stays `""`.
   */
  function Ext(uid: string, withDot: bool): (r: string)
    ensures withDot ==> r == ExtName(uid)
    ensures !withDot ==> '.' !in r
    ensures !withDot && ExtName(uid) != "" ==> ExtName(uid) == "." + r
    ensures !withDot && ExtName(uid) == "" ==> r == ""
  {
    var e := ExtName(uid);
    if withDot || e == "" then e else e[1..]
  }

  /**
   * `File.basename(name, suffix)` of a bare file name: the suffix is removed
   * when it is non-empty, shorter than the name and ends it.
   */
  function Basename(name: string, suffix: string): (r: string)
    ensures r == name || (r != "" && r + suffix == name)
    ensures 0 < |suffix| < |name| && name[|name| - |suffix|..] == suffix ==> r + suffix == name
  {
    if 0 < |suffix| < |name| && name[|name| - |suffix|..] == suffix then
      assert name[..|name| - |suffix|] + suffix == name;
      name[..|name| - |suffix|]
    else name
  }

  /** `public_id`: the uid without its extension. */
  function PublicId(uid: string): (r: string)
    ensures r + Ext(uid, true) == uid
    ensures ExtName(uid) == "" ==> r == uid
  {
    Basename(uid, Ext(uid, true))
  }

  /** `name`: the public id with every underscore removed, through `split('_').join`. */
  function Name(uid: string): (r: string)
    ensures r == Remove(PublicId(uid), '_')
    ensures '_' !in r
    ensures '_' !in PublicId(uid) ==> r == PublicId(uid)
  {
    var pid := PublicId(uid);
    RemoveAbsent(pid, '_');
    RemoveRemoves(pid, '_');
    if '_' in pid then
      JoinSplit(pid, '_');
      Join(Split(pid, '_'))
    else pid
  }

  /** `Hash#merge`: every key of either hash, the value of `overrides` winning. */
  function Merge(defaults: OptionMap, overrides: OptionMap): (r: OptionMap)
    ensures r.Keys == defaults.Keys + overrides.Keys
    ensures forall k :: k in overrides ==> r[k] == overrides[k]
    ensures forall k :: k in defaults && k !in overrides ==> r[k] == defaults[k]
  {
    defaults + overrides
  }

  /** The upload options of `write`: `{public_id: name(content.name)}` merged with the caller's. */
  function UploadOptions(contentName: string, opts: OptionMap): (r: OptionMap)
    ensures r.Keys == opts.Keys + {"public_id"}
    ensures forall k :: k in opts ==> r[k] == opts[k]
    ensures "public_id" !in opts ==> r["public_id"] == Str(Name(contentName))
  {
    Merge(map["public_id" := Str(Name(contentName))], opts)
  }

  /**
   * The uid `write` returns: `"#{public_id}.#{format}"` of the upload response.
   * Without a dot in the format, a folder, or a public id of dots alone,
   * `public_id` and `ext` take it apart again.
   */
  function StoredUid(result: UploadResult): (r: string)
    ensures var p, f := ToS(result.publicId), ToS(result.format);
            '.' !in f && '/' !in f && '/' !in p && !OnlyDots(p) ==>
              PublicId(r) == p && Ext(r, false) == f
  {
    var p, f := ToS(result.publicId), ToS(result.format);
    if '.' !in f && '/' !in f && '/' !in p && !OnlyDots(p) then
      StoredIdRoundTrip(p, f);
      p + "." + f
    else p + "." + f
  }

  /**
   * The URL `read` downloads: `format: ext(uid) || 'jpg'`. `ext` always
   * returns a string, so the fallback is never taken and an extensionless
   * uid asks for the format `""`.
   */
  function ReadUrl(uid: string): (r: UrlArgs)
    ensures r.publicId == PublicId(uid)
    ensures r.options.Keys == {"format"}
    ensures r.options["format"] == Str(Ext(uid, false))
    ensures ExtName(uid) == "" ==> r.options["format"] == Str("")
  {
    UrlArgs(PublicId(uid), map["format" := Str(OrElse(Some(Ext(uid, false)), "jpg"))])
  }

  /** The options of `url_for`: `{format: ext(uid)}` merged with the caller's. */
  function UrlOptions(uid: string, options: OptionMap): (r: OptionMap)
    ensures r.Keys == options.Keys + {"format"}
    ensures forall k :: k in options ==> r[k] == options[k]
    ensures "format" !in options ==> r["format"] == Str(Ext(uid, false))
  {
    Merge(map["format" := Str(Ext(uid, false))], options)
  }

  /** The extension of a name starts at its last dot once a non-dot precedes that dot. */
  lemma ExtNameAt(uid: string, k: nat)
    requires k < |uid| && uid[k] == '.'
    requires forall m :: k < m < |uid| ==> uid[m] != '.'
    requires exists w :: 0 <= w < k && uid[w] != '.'
    ensures ExtName(uid) == uid[k..]
  {
    var w :| 0 <= w < k && uid[w] != '.';
    var lead := LeadingDots(uid);
    assert lead <= w;
    assert uid[lead..][k - lead] == '.';
    var e := ExtName(uid);
    var j := |uid| - |e|;
    forall m | j < m < |uid|
      ensures uid[m] != '.'
    {
      assert uid[m] == e[1..][m - j - 1];
    }
    assert uid[j] == e[0];
    assert j == k;
  }

  /** In `"{p}.{f}"` the extension is the dot after `p` and `f`. */
  lemma StoredExtName(p: string, f: string)
    requires '.' !in f
    requires !OnlyDots(p)
    ensures ExtName(p + "." + f) == (p + "." + f)[|p|..]
  {
    var uid := p + "." + f;
    var k := |p|;
    assert uid[k] == '.';
    forall m | k < m < |uid|
      ensures uid[m] != '.'
    {
      assert uid[m] == f[m - k - 1];
    }
    var w :| 0 <= w < |p| && p[w] != '.';
    assert uid[w] == p[w];
    ExtNameAt(uid, k);
  }

  /**
   * A uid written as `"{p}.{f}"` is read back as public id `p` and format
   * `f`, as long as `f` has no dot, `p` is not made of dots alone, and
   * neither holds a folder separator.
   */
  lemma StoredIdRoundTrip(p: string, f: string)
    requires '.' !in f && '/' !in f
    requires !OnlyDots(p) && '/' !in p
    ensures PublicId(p + "." + f) == p
    ensures Ext(p + "." + f, false) == f
    ensures Ext(p + "." + f, true) == "." + f
  {
    StoredExtName(p, f);
    var uid := p + "." + f;
    var k := |p|;
    PartsAt(uid, k);
    assert uid[..k] == p;
    assert uid[k..] == "." + f;
    assert uid[k + 1..] == f;
  }

  /** With the extension starting at `k`, the public id is what precedes it. */
  lemma PartsAt(uid: string, k: nat)
    requires 0 < k < |uid|
    requires ExtName(uid) == uid[k..]
    ensures PublicId(uid) == uid[..k]
    ensures Ext(uid, false) == uid[k + 1..]
  {
    var e := Ext(uid, true);
    assert e == uid[k..] && |e| == |uid| - k;
    assert Basename(uid, e) == uid[..k];
    assert e[1..] == uid[k + 1..];
  }

  /** What `write` returns, `read`, `destroy` and `url_for` take apart again. */
  lemma WrittenUidRoundTrip(result: UploadResult)
    requires '.' !in ToS(result.format) && '/' !in ToS(result.format)
    requires !OnlyDots(ToS(result.publicId)) && '/' !in ToS(result.publicId)
    ensures PublicId(StoredUid(result)) == ToS(result.publicId)
    ensures ReadUrl(StoredUid(result)).options["format"] == Str(ToS(result.format))
    ensures UrlOptions(StoredUid(result), map[])["format"] == Str(ToS(result.format))
    ensures Name(StoredUid(result)) == Remove(ToS(result.publicId), '_')
  {
    StoredIdRoundTrip(ToS(result.publicId), ToS(result.format));
  }

  /** Removing the underscores around one underscore. */
  lemma RemoveAround(x: string, y: string)
    ensures Remove(x + "_" + y, '_') == Remove(x, '_') + Remove(y, '_')
  {
    RemoveAppend(x + "_", y, '_');
    RemoveAppend(x, "_", '_');
  }

  /** The name of `"{a}_{b}_{c}.{f}"` joins the pieces; its public id keeps the underscores. */
  lemma NameOfPieces(a: string, b: string, c: string, f: string)
    requires '_' !in a && '_' !in b && '_' !in c
    requires '/' !in a && '/' !in b && '/' !in c && '/' !in f
    requires '.' !in f && a != [] && a[0] != '.'
    ensures PublicId(a + "_" + b + "_" + c + "." + f) == a + "_" + b + "_" + c
    ensures Ext(a + "_" + b + "_" + c + "." + f, false) == f
    ensures Name(a + "_" + b + "_" + c + "." + f) == a + b + c
  {
    var p := a + "_" + b + "_" + c;
    assert p[0] == a[0];
    assert p + "." + f == a + "_" + b + "_" + c + "." + f;
    StoredIdRoundTrip(p, f);
    RemoveAround(a + "_" + b, c);
    RemoveAround(a, b);
    RemoveAbsent(a, '_');
    RemoveAbsent(b, '_');
    RemoveAbsent(c, '_');
  }

  lemma ExampleUid(uid: string)
    requires uid == "my_test_image.png"
    ensures uid == "my" + "_" + "test" + "_" + "image" + "." + "png"
    ensures "mytestimage" == "my" + "test" + "image"
    ensures "my_test_image" == "my" + "_" + "test" + "_" + "image"
  {
  }

  /** Names made of underscores: the name drops them, the public id keeps them. */
  lemma NameExample(uid: string)
    requires uid == "my_test_image.png"
    ensures PublicId(uid) == "my_test_image"
    ensures Ext(uid, false) == "png"
    ensures Name(uid) == "mytestimage"
  {
    ExampleUid(uid);
    NameOfPieces("my", "test", "image", "png");
  }

  /** An extensionless uid: the public id is the uid and the read format is `""`. */
  lemma ExtensionlessExample(uid: string)
    requires uid == "test_image"
    ensures Ext(uid, false) == "" && Ext(uid, true) == ""
    ensures PublicId(uid) == "test_image"
    ensures ReadUrl(uid) == UrlArgs("test_image", map["format" := Str("")])
  {
    assert '.' !in uid;
  }

  /**
   * The data store. It holds no state of its own; `requests` records the
   * calls it has made into the Cloudinary client, oldest first.
   */
  class DataStore {
    var requests: seq<Request>

    constructor ()
      ensures requests == []
    {
      requests := [];
    }

    /**
     * `write`: uploads the file under the underscore-free name, caller
     * options winning, and returns the uid the upload response describes.
     */
    method Write(content: Content, opts: OptionMap, uploaded: UploadResult) returns (uid: string)
      modifies this
      ensures requests == old(requests) + [UploadRequest(content.file, UploadOptions(content.name, opts))]
      ensures uid == StoredUid(uploaded)
    {
      requests := requests + [UploadRequest(content.file, UploadOptions(content.name, opts))];
      uid := StoredUid(uploaded);
    }

    /** `read`: downloads the uid's public id in its format and names it. */
    method Read(uid: string, downloaded: seq<bv8>) returns (result: ReadResult)
      modifies this
      ensures requests == old(requests) + [DownloadRequest(ReadUrl(uid))]
      ensures result.data == downloaded
      ensures result.meta == map["name" := Name(uid)]
    {
      requests := requests + [DownloadRequest(ReadUrl(uid))];
      result := ReadResult(downloaded, map["name" := Name(uid)]);
    }

    /** `destroy`: deletes exactly the uid's public id. */
    method Destroy(uid: string)
      modifies this
      ensures requests == old(requests) + [DestroyRequest(PublicId(uid))]
    {
      requests := requests + [DestroyRequest(PublicId(uid))];
    }

    /** `url_for`: composing a URL is local to the client, so nothing is recorded. */
    method UrlFor(uid: string, options: OptionMap) returns (url: UrlArgs)
      ensures url.publicId == PublicId(uid)
      ensures url.options == UrlOptions(uid, options)
    {
      url := UrlArgs(PublicId(uid), UrlOptions(uid, options));
    }
  }
}
