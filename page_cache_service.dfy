/**
 * PageCacheService: where the rendered page for a request path is stored under the
 * content root, and the write-back of a rendered page.
 */
module PageCacheService {
  import opened Text

  const PageCacheFolder: string := ".PageCaches"

  /**
   * Path.Combine of two parts on a platform whose only separator is '/': an empty part
   * is skipped, a rooted second part replaces the first, and a separator is inserted
   * unless the first part already ends in one.
   */
  function Combine(a: string, b: string): (r: string)
    ensures b != "" && b[0] != '/' && a != "" && a[|a| - 1] != '/' ==> r == a + "/" + b
  {
    if b == "" then a
    else if a == "" || b[0] == '/' then b
    else if a[|a| - 1] == '/' then a + b
    else a + "/" + b
  }

  /**
   * Path.Combine keeps both parts in order: an empty second part gives the first, the
   * result always ends with the second part, and a relative second part follows the
   * whole first part with at most one separator between them.
   */
  lemma CombineLaws(a: string, b: string)
    ensures b == "" ==> Combine(a, b) == a
    ensures EndsWith(Combine(a, b), b)
    ensures b != "" && b[0] != '/' ==>
      StartsWith(Combine(a, b), a) && |a| + |b| <= |Combine(a, b)| <= |a| + 1 + |b|
    ensures b != "" && b[0] == '/' ==> Combine(a, b) == b
  {
    var r := Combine(a, b);
    if b != "" && a != "" && b[0] != '/' {
      if a[|a| - 1] == '/' {
        assert r == a + b;
        assert r[..|a|] == a && r[|r| - |b|..] == b;
      } else {
        assert r == a + "/" + b;
        assert r[..|a|] == a && r[|r| - |b|..] == b;
      }
    }
  }

  /** `<root>/.PageCaches`. */
  function CacheFolder(root: string): (r: string)
    ensures r != "" && r[|r| - 1] != '/'
  {
    Combine(root, PageCacheFolder)
  }

  /** GenerageCacheFilename: the cache file of a request path. */
  function CacheFilename(root: string, requestPath: string): (fileName: string)
    ensures StartsWith(fileName, CacheFolder(root) + "/")
  {
    if EndsWith(requestPath, "/") || requestPath == "" then
      Combine(Combine(CacheFolder(root), Trim(requestPath, '/')), "index.html")
    else if !EndsWithIgnoreCase(requestPath, ".html") then
      Combine(CacheFolder(root), Replace(Trim(requestPath, '/'), '/', '_') + ".html")
    else
      HtmlEndIsNotSlash(requestPath);
      TrimOfUnslashedEnd(requestPath);
      Combine(CacheFolder(root), Replace(Trim(requestPath, '/'), '/', '_'))
  }

  /**
   * The file system the cache lives in, as a map from file path to text content.
   * Directories are implied by the paths and not represented.
   */
  class FileStore {
    var files: map<string, string>

    constructor (files: map<string, string>)
      ensures this.files == files
    {
      this.files := files;
    }
  }

  /**
   * WriteCacheFile: stores `content` as the cache file of `requestPath`, replacing any
   * earlier content there. `writeFails` stands for the I/O error the write may raise;
   * then the store is left as it was and the error reaches the caller (`ok` is false).
   */
  method WriteCacheFile(fs: FileStore, root: string, requestPath: string, content: string, writeFails: bool)
    returns (ok: bool)
    modifies fs
    ensures ok == !writeFails
    ensures ok ==> fs.files == old(fs.files)[CacheFilename(root, requestPath) := content]
    ensures ok ==> forall f :: f in old(fs.files) && f != CacheFilename(root, requestPath)
                     ==> f in fs.files && fs.files[f] == old(fs.files)[f]
    ensures !ok ==> fs.files == old(fs.files)
  {
    var fileName := CacheFilename(root, requestPath);
    if writeFails {
      return false;
    }
    fs.files := fs.files[fileName := content];
    ok := true;
  }

  // ---------------------------------------------------------------------------
  // The three shapes of cache file

  /**
   * A directory-style path (empty, or ending in '/') maps to an `index.html` inside a
   * folder named by the path without its outer slashes; inner slashes stay separators.
   */
  lemma DirectoryPathMapsToIndex(root: string, requestPath: string)
    requires requestPath == "" || EndsWith(requestPath, "/")
    ensures var dir := Trim(requestPath, '/');
      CacheFilename(root, requestPath)
        == CacheFolder(root) + "/" + (if dir == "" then "" else dir + "/") + "index.html"
  {
    var folder := CacheFolder(root);
    var dir := Trim(requestPath, '/');
    if dir == "" {
      assert Combine(folder, dir) == folder;
    } else {
      var d := Combine(folder, dir);
      assert d == folder + "/" + dir;
      assert d[|d| - 1] == dir[|dir| - 1];
      assert Combine(d, "index.html") == folder + "/" + (dir + "/") + "index.html";
    }
  }

  /**
   * Any other path not ending in ".html" (ignoring case) maps to one file directly in
   * the cache folder: the path without its outer slashes, '/' turned into '_', plus
   * ".html".
   */
  lemma PagePathMapsToFlatFile(root: string, requestPath: string)
    requires requestPath != "" && !EndsWith(requestPath, "/")
    requires !EndsWithIgnoreCase(requestPath, ".html")
    ensures CacheFilename(root, requestPath)
      == CacheFolder(root) + "/" + Replace(Trim(requestPath, '/'), '/', '_') + ".html"
  {
    var t := Trim(requestPath, '/');
    assert t != "" by { TrimOfUnslashedEnd(requestPath); }
  }

  /** A path already ending in ".html" keeps its name, flattened, with no extension added. */
  lemma HtmlPathKeepsItsName(root: string, requestPath: string)
    requires EndsWithIgnoreCase(requestPath, ".html")
    ensures CacheFilename(root, requestPath)
      == CacheFolder(root) + "/" + Replace(Trim(requestPath, '/'), '/', '_')
  {
    TrimOfUnslashedEnd(requestPath);
  }

  /**
   * Every cache file lies directly or indirectly under `<root>/.PageCaches/` and ends
   * in ".html" (ignoring case).
   */
  lemma CacheFileIsUnderFolderAndHtml(root: string, requestPath: string)
    ensures StartsWith(CacheFilename(root, requestPath), CacheFolder(root) + "/")
    ensures EndsWithIgnoreCase(CacheFilename(root, requestPath), ".html")
  {
    var f := CacheFilename(root, requestPath);
    var folder := CacheFolder(root);
    if requestPath == "" || EndsWith(requestPath, "/") {
      DirectoryFileIsHtml(root, requestPath);
    } else if !EndsWithIgnoreCase(requestPath, ".html") {
      PagePathMapsToFlatFile(root, requestPath);
      var flat := Replace(Trim(requestPath, '/'), '/', '_');
      assert f == (folder + "/") + (flat + ".html");
      SuffixIgnoreCase(folder + "/" + flat, ".html", ".html");
    } else {
      HtmlPathKeepsItsName(root, requestPath);
      var t := Trim(requestPath, '/');
      TrimKeepsSuffixIgnoreCase(requestPath, ".html");
      var flat := Replace(t, '/', '_');
      assert f == (folder + "/") + flat;
      ReplaceKeepsSuffixIgnoreCase(t, ".html");
    }
  }

  lemma DirectoryFileIsHtml(root: string, requestPath: string)
    requires requestPath == "" || EndsWith(requestPath, "/")
    ensures EndsWithIgnoreCase(CacheFilename(root, requestPath), ".html")
  {
    DirectoryPathMapsToIndex(root, requestPath);
    var dir := Trim(requestPath, '/');
    SuffixIgnoreCase(CacheFolder(root) + "/" + (if dir == "" then "" else dir + "/"), "index.html", ".html");
  }

  /**
   * Naming a page with or without its ".html" gives the same file:
   * "/en/about" and "/en/about.html" both map to "en_about.html".
   */
  lemma HtmlSuffixIsOptional(root: string, page: string)
    requires page != "" && !EndsWith(page, "/")
    requires !EndsWithIgnoreCase(page, ".html")
    ensures CacheFilename(root, page) == CacheFilename(root, page + ".html")
  {
    var withHtml := page + ".html";
    assert EndsWithIgnoreCase(withHtml, ".html") by {
      assert withHtml[|withHtml| - 5..] == ".html";
    }
    PagePathMapsToFlatFile(root, page);
    HtmlPathKeepsItsName(root, withHtml);
    FlatNameOfHtmlPage(page);
  }

  lemma FlatNameOfHtmlPage(page: string)
    requires page != "" && !EndsWith(page, "/")
    ensures Replace(Trim(page + ".html", '/'), '/', '_') == Replace(Trim(page, '/'), '/', '_') + ".html"
  {
    assert page[|page| - 1..] == [page[|page| - 1]];
    TrimAppend(page, ".html");
    ReplaceConcat(Trim(page, '/'), ".html");
    assert Replace(".html", '/', '_') == ".html";
  }

  /**
   * The '/' to '_' substitution is not injective: "/a/b" and "/a_b" share a cache file,
   * so two distinct pages can overwrite each other's artifact.
   */
  lemma SlashAndUnderscoreCollide(root: string)
    ensures "/a/b" != "/a_b"
    ensures CacheFilename(root, "/a/b") == CacheFilename(root, "/a_b")
  {
    PagePathMapsToFlatFile(root, "/a/b");
    PagePathMapsToFlatFile(root, "/a_b");
    assert Trim("/a/b", '/') == "a/b" by {
      assert LeadingCount("/a/b", '/') == 1 by { assert "/a/b"[1..] == "a/b"; }
      assert TrailingCount("a/b", '/') == 0;
    }
    assert Trim("/a_b", '/') == "a_b" by {
      assert LeadingCount("/a_b", '/') == 1 by { assert "/a_b"[1..] == "a_b"; }
      assert TrailingCount("a_b", '/') == 0;
    }
    assert Replace("a/b", '/', '_') == "a_b";
    assert Replace("a_b", '/', '_') == "a_b";
  }

  // ---------------------------------------------------------------------------
  // Helpers

  /** Trimming a path whose last character is not '/' removes its leading slashes only. */
  lemma TrimOfUnslashedEnd(s: string)
    requires s != [] && s[|s| - 1] != '/'
    ensures Trim(s, '/') == s[LeadingCount(s, '/')..]
    ensures Trim(s, '/') != ""
  {
    var k := LeadingCount(s, '/');
    LeadingCountBelow(s);
    var t := s[k..];
    assert t[|t| - 1] == s[|s| - 1];
    NoTrailingSlash(t);
    assert t[..|t|] == t;
  }

  /** A name ending in ".html", in any case, does not end in '/'. */
  lemma HtmlEndIsNotSlash(s: string)
    requires EndsWithIgnoreCase(s, ".html")
    ensures s != [] && s[|s| - 1] != '/'
  {
    var tail := s[|s| - 5..];
    assert Lower(tail)[4] == Lower(".html")[4] == 'l';
    assert tail[4] == s[|s| - 1];
  }

  lemma LeadingCountBelow(s: string)
    requires s != [] && s[|s| - 1] != '/'
    ensures LeadingCount(s, '/') < |s|
  {
  }

  lemma NoTrailingSlash(t: string)
    requires t != [] && t[|t| - 1] != '/'
    ensures TrailingCount(t, '/') == 0
  {
  }

  lemma TrimAppend(s: string, tail: string)
    requires s != [] && s[|s| - 1] != '/'
    requires tail != [] && tail[|tail| - 1] != '/' && tail[0] != '/'
    ensures Trim(s + tail, '/') == Trim(s, '/') + tail
  {
    var k := LeadingCount(s, '/');
    TrimOfUnslashedEnd(s);
    TrimOfUnslashedEnd(s + tail);
    LeadingCountAppend(s, tail);
    assert (s + tail)[k..] == s[k..] + tail;
  }

  lemma LeadingCountAppend(s: string, tail: string)
    requires s != [] && s[|s| - 1] != '/'
    ensures LeadingCount(s + tail, '/') == LeadingCount(s, '/')
    decreases |s|
  {
    if s[0] == '/' {
      assert (s + tail)[1..] == s[1..] + tail;
      LeadingCountAppend(s[1..], tail);
    }
  }

  lemma SuffixIgnoreCase(prefix: string, tail: string, suffix: string)
    requires EndsWithIgnoreCase(tail, suffix)
    ensures EndsWithIgnoreCase(prefix + tail, suffix)
  {
    var s := prefix + tail;
    assert s[|s| - |suffix|..] == tail[|tail| - |suffix|..];
  }

  lemma ReplaceConcat(a: string, b: string)
    ensures Replace(a + b, '/', '_') == Replace(a, '/', '_') + Replace(b, '/', '_')
  {
  }

  /** A character whose lower-case form is not '/' is not '/' itself. */
  lemma SuffixHasNoSlash(s: string, suffix: string)
    requires EndsWithIgnoreCase(s, suffix)
    requires HasNo(suffix, '/')
    ensures forall i :: |s| - |suffix| <= i < |s| ==> s[i] != '/'
  {
    var n := |s| - |suffix|;
    forall i | n <= i < |s| ensures s[i] != '/' {
      assert Lower(s[n..])[i - n] == Lower(suffix)[i - n];
      assert LowerChar(s[i]) == LowerChar(suffix[i - n]);
      assert suffix[i - n] != '/';
    }
  }

  lemma TrimKeepsSuffixIgnoreCase(s: string, suffix: string)
    requires EndsWithIgnoreCase(s, suffix) && suffix != ""
    requires HasNo(suffix, '/')
    ensures EndsWithIgnoreCase(Trim(s, '/'), suffix)
  {
    SuffixHasNoSlash(s, suffix);
    var n := |s| - |suffix|;
    assert s[n] != '/' && s[|s| - 1] != '/';
    TrimOfUnslashedEnd(s);
    var k := LeadingCount(s, '/');
    assert k <= n;
    var t := Trim(s, '/');
    assert t == s[k..] && |t| - |suffix| == n - k;
    assert t[n - k..] == s[n..];
  }

  lemma ReplaceKeepsSuffixIgnoreCase(t: string, suffix: string)
    requires EndsWithIgnoreCase(t, suffix)
    requires HasNo(suffix, '/')
    ensures EndsWithIgnoreCase(Replace(t, '/', '_'), suffix)
  {
    var r := Replace(t, '/', '_');
    var n := |t| - |suffix|;
    SuffixHasNoSlash(t, suffix);
    assert r[n..] == t[n..];
  }
}
