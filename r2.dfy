/** The pure part of the object-storage helpers: the checks and the key/URL naming
    inside `uploadToR2`, and `extractR2Key`. The bucket calls themselves are I/O. */
module R2 {
  import opened Wrappers
  import opened ApiUtils

  /** An uploaded file as the handler sees it: its name, MIME type and byte size. */
  datatype File = File(name: string, mimeType: string, size: nat)

  /** Where an uploaded object lives: its bucket key and its public URL. */
  datatype Stored = Stored(url: string, key: string)

  const MaxSize: nat := 5 * 1024 * 1024
  const PublicBase: string := "https://images.yourdomain.com/"
  const MsgInvalidType: string := "Invalid file type. Only images are allowed."
  const MsgTooLarge: string := "File size exceeds 5MB limit."

  function ObjectKey(folder: string, fileName: string, nano: string): string {
    folder + "/" + GenerateSafeFilename(fileName, Some(folder), nano)
  }

  function PublicUrl(key: string): string {
    PublicBase + key
  }

  /** What `uploadToR2` decides around `bucket.put`: the type check, then the size
      check (each a thrown error), then the key and URL of the stored object. */
  function PrepareUpload(file: File, folder: string, nano: string): (r: Result<Stored>)
    ensures !IsValidImageType(file.mimeType) ==> r == Err(MsgInvalidType)
    ensures IsValidImageType(file.mimeType) && file.size > MaxSize ==> r == Err(MsgTooLarge)
    ensures r.Ok? <==> IsValidImageType(file.mimeType) && file.size <= MaxSize
    ensures r.Ok? ==> r.value.url == PublicBase + r.value.key
    ensures r.Ok? && folder != "" ==> StartsWith(r.value.key, folder + "/" + folder + "_")
  {
    if !IsValidImageType(file.mimeType) then Err(MsgInvalidType)
    else if file.size > MaxSize then Err(MsgTooLarge)
    else
      var key := ObjectKey(folder, file.name, nano);
      assert folder != "" ==> StartsWith(key, folder + "/" + folder + "_") by {
        if folder != "" {
          ObjectKeyPrefix(folder, GenerateSafeFilename(file.name, Some(folder), nano));
        }
      }
      Ok(Stored(PublicUrl(key), key))
  }

  /** With a non-empty folder, the key repeats the folder as the file name's prefix. */
  lemma ObjectKeyPrefix(folder: string, name: string)
    requires folder != "" && StartsWith(name, folder + "_")
    ensures StartsWith(folder + "/" + name, folder + "/" + folder + "_")
  {
    PrefixBehind(folder + "/", name, folder + "_");
    assert folder + "/" + (folder + "_") == folder + "/" + folder + "_";
  }

  /** The size limit is inclusive. */
  lemma SizeLimitInclusive(file: File, folder: string, nano: string)
    requires IsValidImageType(file.mimeType)
    ensures file.size == MaxSize ==> PrepareUpload(file, folder, nano).Ok?
    ensures file.size == MaxSize + 1 ==> PrepareUpload(file, folder, nano) == Err(MsgTooLarge)
  {
  }

  // -------------------------------------------------------- URL parsing

  /** The longest prefix of `s` that contains no character of `stop`. */
  function PrefixUntil(s: string, stop: set<char>): (p: string)
    ensures |p| <= |s| && p == s[..|p|]
    ensures forall c :: c in stop ==> c !in p
    ensures |p| < |s| ==> s[|p|] in stop
  {
    if s == [] || s[0] in stop then [] else [s[0]] + PrefixUntil(s[1..], stop)
  }

  lemma {:induction false} PrefixUntilConcat(a: string, b: string, stop: set<char>)
    requires forall i :: 0 <= i < |a| ==> a[i] !in stop
    requires b == [] || b[0] in stop
    ensures PrefixUntil(a + b, stop) == a
  {
    if a != [] {
      assert (a + b)[0] == a[0];
      assert (a + b)[1..] == a[1..] + b;
      PrefixUntilConcat(a[1..], b, stop);
    }
  }

  predicate IsLetter(c: char) { 'a' <= c <= 'z' || 'A' <= c <= 'Z' }

  predicate AllLetters(s: string) {
    forall i :: 0 <= i < |s| ==> IsLetter(s[i])
  }

  /** What follows `scheme "://"`, for a non-empty scheme of letters; None otherwise. */
  function AfterScheme(url: string): Option<string> {
    var scheme := PrefixUntil(url, {':'});
    if scheme == [] || !AllLetters(scheme) || |url| < |scheme| + 3
       || url[|scheme|..|scheme| + 3] != "://" then None
    else Some(url[|scheme| + 3..])
  }

  /** The path of `host path...` up to any query or fragment, "/" when empty; None for
      an empty host. */
  function PathAfterHost(rest: string): (p: Option<string>)
    ensures p.Some? ==> |p.value| > 0 && p.value[0] == '/'
    ensures p.Some? ==> '?' !in p.value && '#' !in p.value
  {
    var host := PrefixUntil(rest, {'/', '?', '#'});
    if host == [] then None
    else
      var path := PrefixUntil(rest[|host|..], {'?', '#'});
      if path == [] then Some("/") else Some(path)
  }

  /** The `pathname` of `new URL(url)` for URLs of the form scheme "://" host path, or
      None where the constructor throws. */
  function Pathname(url: string): (p: Option<string>)
    ensures p.Some? ==> |p.value| > 0 && p.value[0] == '/'
    ensures p.Some? ==> '?' !in p.value && '#' !in p.value
  {
    match AfterScheme(url)
    case None => None
    case Some(rest) => PathAfterHost(rest)
  }

  /** `extractR2Key`: the pathname without its leading '/', or null for an unparseable URL. */
  function ExtractR2Key(url: string): (key: Option<string>)
    ensures key.Some? <==> Pathname(url).Some?
    ensures key.Some? ==> Pathname(url).value == "/" + key.value
  {
    match Pathname(url)
    case None => None
    case Some(p) => Some(p[1..])
  }

  /** Characters that a URL path carries as they are (no percent-encoding). */
  predicate UrlSafe(c: char) {
    IsLetter(c) || '0' <= c <= '9' || c == '-' || c == '_' || c == '.' || c == '~' || c == '/'
  }

  predicate AllUrlSafe(s: string) {
    forall i :: 0 <= i < |s| ==> UrlSafe(s[i])
  }

  const Host: string := "images.yourdomain.com"

  lemma AfterSchemeOf(scheme: string, rest: string)
    requires scheme != [] && AllLetters(scheme)
    ensures AfterScheme(scheme + "://" + rest) == Some(rest)
  {
    var url := scheme + "://" + rest;
    assert url == scheme + ("://" + rest);
    forall i | 0 <= i < |scheme| ensures scheme[i] !in {':'} {
      assert IsLetter(scheme[i]);
    }
    PrefixUntilConcat(scheme, "://" + rest, {':'});
    assert url[|scheme|..|scheme| + 3] == "://";
    assert url[|scheme| + 3..] == rest;
  }

  lemma PublicUrlScheme(key: string)
    ensures AfterScheme(PublicUrl(key)) == Some(Host + "/" + key)
  {
    assert PublicUrl(key) == "https" + "://" + (Host + "/" + key);
    assert AllLetters("https");
    AfterSchemeOf("https", Host + "/" + key);
  }

  lemma PublicUrlPath(key: string)
    requires '?' !in key && '#' !in key
    ensures PathAfterHost(Host + "/" + key) == Some("/" + key)
  {
    var rest := Host + "/" + key;
    var path := "/" + key;
    assert rest == Host + path;
    PrefixUntilConcat(Host, path, {'/', '?', '#'});
    assert rest[|Host|..] == path;
    forall i | 0 <= i < |path| ensures path[i] !in {'?', '#'} {
      if i > 0 { assert path[i] == key[i - 1]; }
    }
    PrefixUntilConcat(path, [], {'?', '#'});
    assert path + [] == path;
  }

  /** Every '.' follows a character that is neither '/' nor '.'. Then no path segment is
      "." or "..", which the URL parser would remove or resolve. */
  predicate DotsInsideNames(s: string) {
    forall i :: 0 <= i < |s| && s[i] == '.' ==> 0 < i && s[i - 1] != '/' && s[i - 1] != '.'
  }

  /** The characters `nanoid` draws from: letters, digits, '_' and '-'. */
  predicate NanoChar(c: char) {
    IsLetter(c) || '0' <= c <= '9' || c == '_' || c == '-'
  }

  /** A random part as `nanoid(12)` makes it: non-empty, from nanoid's alphabet. */
  predicate NanoId(s: string) {
    s != [] && forall i :: 0 <= i < |s| ==> NanoChar(s[i])
  }

  /** `extractR2Key` recovers the key of every URL that `uploadToR2` builds, as long as
      the key needs no percent-encoding and has no "." or ".." segment. */
  lemma KeyRoundTrip(key: string)
    requires AllUrlSafe(key) && DotsInsideNames(key)
    ensures ExtractR2Key(PublicUrl(key)) == Some(key)
  {
    assert '?' !in key && '#' !in key by {
      forall i | 0 <= i < |key| ensures key[i] != '?' && key[i] != '#' {
        assert UrlSafe(key[i]);
      }
    }
    PublicUrlScheme(key);
    PublicUrlPath(key);
    assert ("/" + key)[1..] == key;
  }

  /** The round trip for the key of an upload whose folder is URL-safe with no dot
      segment, whose random part comes from nanoid, and whose file extension is URL-safe. */
  lemma UploadRoundTrip(file: File, folder: string, nano: string)
    requires AllUrlSafe(folder) && DotsInsideNames(folder)
    requires NanoId(nano) && AllUrlSafe(Extension(file.name))
    requires PrepareUpload(file, folder, nano).Ok?
    ensures var s := PrepareUpload(file, folder, nano).value;
            ExtractR2Key(s.url) == Some(s.key)
  {
    var s := PrepareUpload(file, folder, nano).value;
    var ext := Extension(file.name);
    var stem := if Truthy(Some(folder)) then folder + "_" + nano else nano;
    assert s.key == folder + "/" + (stem + ("." + ext));
    NanoSafe(nano);
    SafeKey(folder, stem, nano, ext);
    DotsKey(folder, stem, nano, ext);
    KeyRoundTrip(s.key);
  }

  lemma NanoSafe(nano: string)
    requires NanoId(nano)
    ensures AllUrlSafe(nano) && DotsInsideNames(nano)
    ensures nano[|nano| - 1] != '/' && nano[|nano| - 1] != '.'
  {
    forall i | 0 <= i < |nano| ensures UrlSafe(nano[i]) && nano[i] != '.' {
      assert NanoChar(nano[i]);
    }
    assert NanoChar(nano[|nano| - 1]);
  }

  lemma SafeKey(folder: string, stem: string, nano: string, ext: string)
    requires AllUrlSafe(folder) && AllUrlSafe(nano) && AllUrlSafe(ext)
    requires stem == folder + "_" + nano || stem == nano
    ensures AllUrlSafe(folder + "/" + (stem + ("." + ext)))
  {
    SafeConcat(folder, "_");
    SafeConcat(folder + "_", nano);
    SafeConcat(".", ext);
    SafeConcat(stem, "." + ext);
    SafeConcat(folder, "/");
    SafeConcat(folder + "/", stem + ("." + ext));
  }

  /** The only '.' the generated name adds follows the last character of the random part. */
  lemma DotsKey(folder: string, stem: string, nano: string, ext: string)
    requires DotsInsideNames(folder) && DotsInsideNames(nano) && '.' !in ext
    requires nano != [] && nano[|nano| - 1] != '/' && nano[|nano| - 1] != '.'
    requires stem == folder + "_" + nano || stem == nano
    ensures DotsInsideNames(folder + "/" + (stem + ("." + ext)))
  {
    DotsConcat(folder, "_");
    DotsConcat(folder + "_", nano);
    assert stem[|stem| - 1] == nano[|nano| - 1];
    DotsAfterName(stem, ext);
    DotsConcat(folder, "/");
    DotsConcat(folder + "/", stem + ("." + ext));
  }

  lemma DotsConcat(a: string, b: string)
    requires DotsInsideNames(a) && DotsInsideNames(b)
    ensures DotsInsideNames(a + b)
  {
    forall i | 0 <= i < |a + b| && (a + b)[i] == '.'
      ensures 0 < i && (a + b)[i - 1] != '/' && (a + b)[i - 1] != '.'
    {
      if i < |a| {
        assert (a + b)[i] == a[i] && (a + b)[i - 1] == a[i - 1];
      } else {
        assert (a + b)[i] == b[i - |a|] && (a + b)[i - 1] == b[i - |a| - 1];
      }
    }
  }

  lemma DotsAfterName(stem: string, ext: string)
    requires DotsInsideNames(stem) && '.' !in ext
    requires stem != [] && stem[|stem| - 1] != '/' && stem[|stem| - 1] != '.'
    ensures DotsInsideNames(stem + ("." + ext))
  {
    var s := stem + ("." + ext);
    forall i | 0 <= i < |s| && s[i] == '.'
      ensures 0 < i && s[i - 1] != '/' && s[i - 1] != '.'
    {
      if i < |stem| {
        assert s[i] == stem[i] && s[i - 1] == stem[i - 1];
      }
    }
  }

  lemma SafeConcat(a: string, b: string)
    requires AllUrlSafe(a) && AllUrlSafe(b)
    ensures AllUrlSafe(a + b)
  {
    forall i | 0 <= i < |a + b| ensures UrlSafe((a + b)[i]) {
      if i < |a| { assert (a + b)[i] == a[i]; } else { assert (a + b)[i] == b[i - |a|]; }
    }
  }

  /** A key containing '#' is never what `extractR2Key` returns. */
  lemma HashKeyNotRecoverable(url: string, key: string)
    requires '#' in key
    ensures ExtractR2Key(url) != Some(key)
  {
  }

  /** A '#' in the uploaded file's extension survives into the key, and the key can then
      not be recovered from the URL. */
  lemma HashInExtensionBreaksRoundTrip()
    ensures var s := PrepareUpload(File("a.j#g", "image/png", 1), "events", "N").value;
            ExtractR2Key(s.url) != Some(s.key)
  {
    var file := File("a.j#g", "image/png", 1);
    assert IsValidImageType(file.mimeType);
    KeyOfUpload(file, "events", "N");
    HashNameOfUpload();
    var s := PrepareUpload(file, "events", "N").value;
    assert s.key == "events" + "/" + "events_N.j#g";
    assert s.key[|s.key| - 2] == '#';
    HashKeyNotRecoverable(s.url, s.key);
  }

  /** An accepted upload is stored under the folder, then the generated file name. */
  lemma KeyOfUpload(file: File, folder: string, nano: string)
    requires IsValidImageType(file.mimeType) && file.size <= MaxSize
    ensures PrepareUpload(file, folder, nano).Ok?
    ensures PrepareUpload(file, folder, nano).value.key
            == folder + "/" + GenerateSafeFilename(file.name, Some(folder), nano)
  {
  }

  /** The file name generated for "a.j#g" under "events" with the random part "N". */
  lemma HashNameOfUpload()
    ensures GenerateSafeFilename("a.j#g", Some("events"), "N") == "events_N.j#g"
  {
    HashExtension();
    assert Truthy(Some("events"));
    assert ("events" + "_" + "N") + ("." + "j#g") == "events_N.j#g";
  }

  /** The extension kept from "a.j#g". */
  lemma HashExtension()
    ensures Extension("a.j#g") == "j#g"
  {
    assert "a.j#g"[1..] == ".j#g";
    assert ".j#g"[1..] == "j#g";
  }

  /** A URL without "://" does not parse. */
  lemma NoSchemeIsNull(url: string)
    requires forall i :: 0 <= i < |url| ==> url[i] != ':'
    ensures ExtractR2Key(url) == None
  {
    assert PrefixUntil(url, {':'}) == url;
  }
}
