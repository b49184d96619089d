/**
 * The two file types an animation can be fetched as, and the disk cache of
 * fetched animations: one file per URL, named after the URL's word
 * characters, written under a temporary name first and renamed once it
 * parses.
 *
 * The file system is the set of paths of plain files plus whether the cache
 * directory exists; file contents, the byte copying and the log lines are
 * not modelled.
 */
module NetworkCaches {
  import opened Wrappers
  import opened Strings

  /** `FileExtension`: the enum's values in declaration order are JSON, ZIP. */
  datatype FileExtension = JSON | ZIP

  const VALUES: seq<FileExtension> := [JSON, ZIP]

  /** The `extension` field, which `toString` also returns. */
  function Extension(e: FileExtension): (r: string)
    ensures |r| >= 4 && r[0] == '.' && '/' !in r
  {
    match e
    case JSON => ".json"
    case ZIP => ".zip"
  }

  /** `tempExtension`: ".temp" in front of the extension. */
  function TempExtension(e: FileExtension): (r: string)
    ensures EndsWith(r, Extension(e)) && StartsWith(r, ".temp")
  {
    ".temp" + Extension(e)
  }

  /** The first of `values`, in order, whose extension ends the name. */
  function FirstMatch(values: seq<FileExtension>, fileName: string): (r: Option<FileExtension>)
    ensures r.Some? ==> r.value in values && EndsWith(fileName, Extension(r.value))
    ensures r.None? ==> forall e :: e in values ==> !EndsWith(fileName, Extension(e))
  {
    if values == [] then None
    else if EndsWith(fileName, Extension(values[0])) then Some(values[0])
    else FirstMatch(values[1..], fileName)
  }

  /** `forFile`: the first extension ending the name, JSON when none does. */
  function ForFile(fileName: string): (r: FileExtension)
  {
    match FirstMatch(VALUES, fileName)
    case Some(e) => e
    case None => JSON
  }

  /** A name is read as ZIP exactly when it ends in ".zip"; everything else, the unknown included, is JSON. */
  lemma ForFileCases(fileName: string)
    ensures ForFile(fileName) == ZIP <==> EndsWith(fileName, ".zip")
    ensures ForFile(fileName) == JSON <==> !EndsWith(fileName, ".zip")
  {
    if EndsWith(fileName, ".json") {
      assert fileName[|fileName| - 4..] == fileName[|fileName| - 5..][1..];
      assert fileName[|fileName| - 4..] != ".zip";
    }
  }

  /** Appending an extension, or a temporary one, names a file of that type. */
  lemma ForFileRoundTrip(base: string, e: FileExtension)
    ensures ForFile(base + Extension(e)) == e
    ensures ForFile(base + TempExtension(e)) == e
  {
    var s, t := base + Extension(e), base + TempExtension(e);
    assert s[|s| - |Extension(e)|..] == Extension(e);
    assert t[|t| - |Extension(e)|..] == Extension(e);
    ForFileEnding(s, e);
    ForFileEnding(t, e);
  }

  /** A name ending in an extension is read as that extension's type. */
  lemma ForFileEnding(s: string, e: FileExtension)
    requires EndsWith(s, Extension(e))
    ensures ForFile(s) == e
  {
    ForFileCases(s);
    if e == ZIP {
      assert EndsWith(s, ".zip");
    }
  }

  const PREFIX: string := "lottie_cache_"

  /** `filenameForUrl`: the prefix, the URL's word characters, then the (temporary) extension. */
  function FilenameForUrl(url: string, e: FileExtension, isTemp: bool): (r: string)
    ensures r == UrlHead(url) + (if isTemp then TempExtension(e) else Extension(e))
  {
    PREFIX + RemoveNonWord(url) + (if isTemp then TempExtension(e) else Extension(e))
  }

  /** The part of a cache file name that comes from the URL, prefix included: word characters only. */
  function UrlHead(url: string): (r: string)
    ensures '.' !in r && '/' !in r
  {
    var r := PREFIX + RemoveNonWord(url);
    assert forall i :: 0 <= i < |r| ==> r[i] != '.' && r[i] != '/' by {
      forall i | 0 <= i < |r| ensures r[i] != '.' && r[i] != '/' {
        if i >= |PREFIX| {
          assert r[i] == RemoveNonWord(url)[i - |PREFIX|];
        }
      }
    }
    r
  }

  /** A cache file name holds no slash and ends with its extension. */
  lemma FilenameShape(url: string, e: FileExtension, isTemp: bool)
    ensures '/' !in FilenameForUrl(url, e, isTemp)
    ensures EndsWith(FilenameForUrl(url, e, isTemp), Extension(e))
  {
    var r := FilenameForUrl(url, e, isTemp);
    assert r[|r| - |Extension(e)|..] == Extension(e);
  }

  /** The file name of a cache entry is read back as its own type. */
  lemma FilenameRoundTrip(url: string, e: FileExtension, isTemp: bool)
    ensures ForFile(FilenameForUrl(url, e, isTemp)) == e
  {
    ForFileRoundTrip(UrlHead(url), e);
  }

  /** URLs that differ only in non-word characters share a cache file. */
  lemma FilenameIgnoresNonWord(url: string, other: string, e: FileExtension, isTemp: bool)
    requires RemoveNonWord(url) == RemoveNonWord(other)
    ensures FilenameForUrl(url, e, isTemp) == FilenameForUrl(other, e, isTemp)
  {
  }

  /** `replace(pat, "")` passes over a head without the pattern's first character. */
  lemma {:induction false} RemoveAllSkip(head: string, s: string, pat: string)
    requires |pat| > 0 && pat[0] !in head
    ensures RemoveAll(head + s, pat) == head + RemoveAll(s, pat)
  {
    if head != [] {
      var t := head + s;
      assert t[0] == head[0] && !StartsWith(t, pat);
      assert t[1..] == head[1..] + s;
      RemoveAllSkip(head[1..], s, pat);
      AppendAssoc([head[0]], head[1..], RemoveAll(s, pat));
      assert [head[0]] + head[1..] == head;
    } else {
      assert head + s == s;
    }
  }

  /** `replace(pat, "")` drops a leading occurrence. */
  lemma RemoveAllLeading(s: string, pat: string)
    requires |pat| > 0
    ensures RemoveAll(pat + s, pat) == RemoveAll(s, pat)
  {
    assert (pat + s)[..|pat|] == pat;
    assert (pat + s)[|pat|..] == s;
  }

  /** No extension holds ".temp". */
  lemma ExtensionKeeps(e: FileExtension)
    ensures RemoveAll(Extension(e), ".temp") == Extension(e)
  {
    var x := Extension(e);
    assert !StartsWith(x, ".temp") by {
      if e == JSON {
        assert x[1] != ".temp"[1];
      }
    }
    assert '.' !in x[1..] by {
      match e
      case JSON => assert x[1..] == "json";
      case ZIP => assert x[1..] == "zip";
    }
    RemoveAllSkip(x[1..], [], ".temp");
    assert x[1..] + [] == x[1..];
    assert [x[0]] + x[1..] == x;
  }

  /** Removing ".temp" from a temporary file name gives the final name. */
  lemma TempNameStripped(url: string, e: FileExtension)
    ensures RemoveAll(FilenameForUrl(url, e, true), ".temp") == FilenameForUrl(url, e, false)
  {
    var head := UrlHead(url);
    assert FilenameForUrl(url, e, true) == head + (".temp" + Extension(e));
    RemoveAllSkip(head, ".temp" + Extension(e), ".temp");
    RemoveAllLeading(Extension(e), ".temp");
    ExtensionKeeps(e);
  }

  /** The path of a file of the cache directory. */
  function Child(dir: string, name: string): string
  {
    dir + "/" + name
  }

  /** A path of a file directly inside the directory. */
  predicate IsChild(dir: string, path: string)
  {
    StartsWith(path, dir + "/") && '/' !in path[|dir| + 1..]
  }

  /** `getCachedFile`: the JSON file when it exists, else the ZIP file when it exists, else nothing. */
  function CachedFile(files: set<string>, dir: string, url: string): (r: Option<string>)
    ensures r.Some? ==> r.value in files
    ensures r.None? <==> Child(dir, FilenameForUrl(url, JSON, false)) !in files && Child(dir, FilenameForUrl(url, ZIP, false)) !in files
  {
    var json := Child(dir, FilenameForUrl(url, JSON, false));
    var zip := Child(dir, FilenameForUrl(url, ZIP, false));
    if json in files then Some(json)
    else if zip in files then Some(zip)
    else None
  }

  /** `fetchPair`: the cached file and its type, ZIP exactly when its path ends in ".zip". */
  function FetchPairOf(files: set<string>, dir: string, url: string): (r: Option<(FileExtension, string)>)
  {
    match CachedFile(files, dir, url)
    case None => None
    case Some(path) => Some((if EndsWith(path, ".zip") then ZIP else JSON, path))
  }

  /** The pair names the JSON file as JSON when it exists, and the ZIP file as ZIP only when the JSON one is missing. */
  lemma FetchPairPrefersJson(files: set<string>, dir: string, url: string)
    ensures var json := Child(dir, FilenameForUrl(url, JSON, false));
      json in files ==> FetchPairOf(files, dir, url) == Some((JSON, json))
    ensures var (json, zip) := (Child(dir, FilenameForUrl(url, JSON, false)), Child(dir, FilenameForUrl(url, ZIP, false)));
      json !in files && zip in files ==> FetchPairOf(files, dir, url) == Some((ZIP, zip))
  {
    PathEndsZip(dir, url, JSON);
    PathEndsZip(dir, url, ZIP);
  }

  /** A cache path ends in ".zip" exactly when it is the ZIP file's. */
  lemma PathEndsZip(dir: string, url: string, e: FileExtension)
    ensures EndsWith(Child(dir, FilenameForUrl(url, e, false)), ".zip") <==> e == ZIP
  {
    var p := Child(dir, FilenameForUrl(url, e, false));
    assert p == (dir + "/" + UrlHead(url)) + Extension(e);
    ForFileRoundTrip(dir + "/" + UrlHead(url), e);
    ForFileCases(p);
  }

  /** Where `renameTempFile` moves the temporary file, as written: ".temp" removed from the whole absolute path. */
  function RenameTargetAsWritten(dir: string, url: string, e: FileExtension): string
  {
    RemoveAll(Child(dir, FilenameForUrl(url, e, true)), ".temp")
  }

  /**
   * A cache directory whose own path ends in ".temp" loses that part too: the
   * file is renamed into the directory without it, not into the cache.
   */
  lemma RenameLeavesDirAsWritten(dir: string, url: string, e: FileExtension)
    requires '.' !in dir
    ensures RenameTargetAsWritten(dir + ".temp", url, e) == Child(dir, FilenameForUrl(url, e, false))
    ensures !IsChild(dir + ".temp", RenameTargetAsWritten(dir + ".temp", url, e))
  {
    StrippedDirTarget(dir, url, e);
    NotInTempDir(dir, FilenameForUrl(url, e, false));
  }

  lemma StrippedDirTarget(dir: string, url: string, e: FileExtension)
    requires '.' !in dir
    ensures RenameTargetAsWritten(dir + ".temp", url, e) == Child(dir, FilenameForUrl(url, e, false))
  {
    TempNameStripped(url, e);
    StripTempDir(dir, FilenameForUrl(url, e, true), FilenameForUrl(url, e, false));
  }

  /** Removing ".temp" from a path in a directory named `dir` + ".temp" strips the directory's suffix too. */
  lemma StripTempDir(dir: string, name: string, stripped: string)
    requires '.' !in dir && RemoveAll(name, ".temp") == stripped
    ensures RemoveAll(Child(dir + ".temp", name), ".temp") == Child(dir, stripped)
  {
    StripSuffixDir(dir, ".temp", "/", name, stripped);
    assert Child(dir + ".temp", name) == dir + (".temp" + ("/" + name));
    assert Child(dir, stripped) == dir + ("/" + stripped);
  }

  /** Removing a pattern from dir + pat + sep + name, where neither dir nor sep holds its first character. */
  lemma StripSuffixDir(dir: string, pat: string, sep: string, name: string, stripped: string)
    requires |pat| > 0 && pat[0] !in dir && pat[0] !in sep && RemoveAll(name, pat) == stripped
    ensures RemoveAll(dir + (pat + (sep + name)), pat) == dir + (sep + stripped)
  {
    RemoveAllSkip(dir, pat + (sep + name), pat);
    RemoveAllLeading(sep + name, pat);
    RemoveAllSkip(sep, name, pat);
  }


  lemma NotInTempDir(dir: string, name: string)
    ensures !IsChild(dir + ".temp", Child(dir, name))
  {
    var r := Child(dir, name);
    assert r[|dir|] != (dir + ".temp" + "/")[|dir|];
  }

  /** The intended target: the final name in the cache directory, the file `getCachedFile` looks for. */
  function RenameTarget(dir: string, url: string, e: FileExtension): (r: string)
    ensures r == Child(dir, FilenameForUrl(url, e, false))
  {
    TempNameStripped(url, e);
    Child(dir, RemoveAll(FilenameForUrl(url, e, true), ".temp"))
  }

  /** No occurrence of a pattern the string does not contain. */
  lemma {:induction false} NoOccurrence(s: string, pat: string, k: int)
    requires !ContainsStr(s, pat)
    ensures !OccursAt(s, pat, k)
    decreases |s|
  {
    if 0 < k && s != [] {
      NoOccurrence(s[1..], pat, k - 1);
      if k + |pat| <= |s| {
        assert s[1..][k - 1..k - 1 + |pat|] == s[k..k + |pat|];
      }
    } else if k == 0 && |pat| <= |s| {
      assert s[..|pat|] == s[k..k + |pat|];
    }
  }

  /** `replace(pat, "")` passes over a head in which no occurrence of the pattern starts. */
  lemma {:induction false} RemoveAllPast(head: string, s: string, pat: string)
    requires |pat| > 0
    requires forall k :: 0 <= k < |head| ==> !OccursAt(head + s, pat, k)
    ensures RemoveAll(head + s, pat) == head + RemoveAll(s, pat)
  {
    if head != [] {
      var t := head + s;
      assert !OccursAt(t, pat, 0);
      assert !StartsWith(t, pat) by {
        if |pat| <= |t| {
          assert t[..|pat|] == t[0..0 + |pat|];
        }
      }
      var u := head[1..] + s;
      assert u == t[1..];
      forall k | 0 <= k < |head[1..]|
        ensures !OccursAt(u, pat, k)
      {
        assert !OccursAt(t, pat, k + 1);
        if k + |pat| <= |u| {
          assert u[k..k + |pat|] == t[k + 1..k + 1 + |pat|];
        }
      }
      RemoveAllPast(head[1..], s, pat);
      AppendAssoc([head[0]], head[1..], RemoveAll(s, pat));
      assert [head[0]] + head[1..] == head;
    } else {
      assert head + s == s;
    }
  }

  /** No occurrence of ".temp" starts before a slash when the text before the slash holds none. */
  lemma NoTempBeforeSlash(t: string, n: nat, k: int)
    requires n < |t| && t[n] == '/' && !ContainsStr(t[..n], ".temp") && 0 <= k <= n
    ensures !OccursAt(t, ".temp", k)
  {
    if k + 5 <= n {
      NoOccurrence(t[..n], ".temp", k);
      assert t[..n][k..k + 5] == t[k..k + 5];
    } else if k + 5 <= |t| {
      assert t[k..k + 5][n - k] == t[n];
    }
  }

  /** The two targets agree for any directory path that does not contain ".temp". */
  lemma RenameTargetsAgree(dir: string, url: string, e: FileExtension)
    requires !ContainsStr(dir, ".temp")
    ensures RenameTargetAsWritten(dir, url, e) == RenameTarget(dir, url, e)
  {
    var name := FilenameForUrl(url, e, true);
    var t := (dir + "/") + name;
    assert Child(dir, name) == t;
    assert t[..|dir|] == dir && t[|dir|] == '/';
    forall k | 0 <= k < |dir + "/"|
      ensures !OccursAt(t, ".temp", k)
    {
      NoTempBeforeSlash(t, |dir|, k);
    }
    RemoveAllPast(dir + "/", name, ".temp");
    TempNameStripped(url, e);
  }

  /** The on-disk cache of one cache directory. */
  class NetworkCache {
    /** The path `getCacheDir` gives. */
    const dir: string
    /** Paths of the plain files on disk. */
    var files: set<string>
    /** Whether the cache directory exists as a directory. */
    var dirExists: bool

    constructor (dir: string, files: set<string>, dirExists: bool)
      ensures this.dir == dir && this.files == files && this.dirExists == dirExists
    {
      this.dir, this.files, this.dirExists := dir, files, dirExists;
    }

    /** `parentDir`: a plain file in the directory's place is deleted, and a missing directory is made. */
    method ParentDir() returns (path: string)
      modifies this`files, this`dirExists
      ensures path == dir
      ensures files == old(files) - {dir} && dirExists
    {
      if dir in files {
        files := files - {dir};
      }
      if !dirExists {
        dirExists := true;
      }
      return dir;
    }

    /** `clear`: every file of the directory is deleted, then the directory itself; other files stay. */
    method Clear()
      modifies this`files, this`dirExists
      ensures files == set p | p in old(files) && p != dir && !IsChild(dir, p)
      ensures !dirExists
    {
      var parent := ParentDir();
      var children := set p | p in files && IsChild(parent, p);
      ghost var kept := files - children;
      while children != {}
        invariant children <= files
        invariant files - children == kept
        decreases children
      {
        var p :| p in children;
        files := files - {p};
        children := children - {p};
      }
      assert files == kept;
      dirExists := false;
    }

    /** `getCachedFile`, after making sure the directory exists. */
    method GetCachedFile(url: string) returns (r: Option<string>)
      modifies this`files, this`dirExists
      ensures files == old(files) - {dir} && dirExists
      ensures r == CachedFile(files, dir, url)
    {
      var parent := ParentDir();
      var json := Child(parent, FilenameForUrl(url, JSON, false));
      if json in files {
        return Some(json);
      }
      var zip := Child(parent, FilenameForUrl(url, ZIP, false));
      if zip in files {
        return Some(zip);
      }
      return None;
    }

    /** `fetchPair`: nothing when no file is cached, else the file with its type read off the path. */
    method FetchPair(url: string) returns (r: Option<(FileExtension, string)>)
      modifies this`files, this`dirExists
      ensures files == old(files) - {dir} && dirExists
      ensures r == FetchPairOf(files, dir, url)
    {
      var cached := GetCachedFile(url);
      if cached.None? {
        return None;
      }
      var path := cached.value;
      var extension := if EndsWith(path, ".zip") then ZIP else JSON;
      return Some((extension, path));
    }

    /** `writeTempCacheFile`: the fetched bytes go to the temporary name in the directory. */
    method WriteTempCacheFile(url: string, e: FileExtension) returns (path: string)
      modifies this`files, this`dirExists
      ensures path == Child(dir, FilenameForUrl(url, e, true))
      ensures files == old(files) - {dir} + {path} && dirExists
    {
      var parent := ParentDir();
      path := Child(parent, FilenameForUrl(url, e, true));
      files := files + {path};
    }

    /**
     * `renameTempFile` with the corrected target, the final name in the cache
     * directory; the code as written strips ".temp" from the whole path,
     * which differs only when the directory path contains ".temp".
     * `renamed` is what the platform's rename reports; it cannot succeed
     * without the temporary file. A failed rename changes nothing but the
     * directory `parentDir` ensures.
     */
    method RenameTempFile(url: string, e: FileExtension, renamed: bool)
      modifies this`files, this`dirExists
      ensures var (from, to) := (Child(dir, FilenameForUrl(url, e, true)), Child(dir, FilenameForUrl(url, e, false)));
        files == if renamed && from in old(files) - {dir} then old(files) - {dir} - {from} + {to} else old(files) - {dir}
      ensures dirExists
    {
      var parent := ParentDir();
      var from := Child(parent, FilenameForUrl(url, e, true));
      var to := RenameTarget(parent, url, e);
      if renamed && from in files {
        files := files - {from} + {to};
      }
    }
  }

  /** A file written under its temporary name and renamed is the file the next fetch finds, read with the same type. */
  lemma WrittenThenRenamedIsFetched(files: set<string>, dir: string, url: string, e: FileExtension)
    requires Child(dir, FilenameForUrl(url, JSON, false)) !in files
    ensures var to := Child(dir, FilenameForUrl(url, e, false));
      FetchPairOf(files + {to}, dir, url) == Some((e, to))
  {
    FetchPairPrefersJson(files + {Child(dir, FilenameForUrl(url, e, false))}, dir, url);
  }
}
