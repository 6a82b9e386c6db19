/**
 * The repository id used in log messages and image names: reduced.py's
 * `install_repo` builds `<author>___<name>` from a GitHub URL, and
 * classify.py's `convert_back_repo_format` turns such an id back into a URL.
 */
module RepoIds {
  import opened Wrappers
  import opened StringUtils

  const Separator: string := "___"
  const GitHubPrefix: string := "https://github.com/"
  const TempImagePrefix: string := "r2e:temp_"

  /** The names `install_repo` derives from a URL, or `None` where `split("/")[-2]` has no element. */
  datatype Derived = Derived(repoName: string, repoAuthor: string, repoId: string, imageName: string)

  /**
   * `install_repo`: the last two `/`-segments of the URL are the name and
   * the author; the id joins them with `___`, the image is `r2e:temp_<name>`.
   */
  function DeriveIds(url: string): (r: Option<Derived>)
    ensures r.None? <==> '/' !in url
    ensures r.Some? ==> '/' !in r.value.repoName && '/' !in r.value.repoAuthor
  {
    var parts := Split(url, '/');
    SplitSegments(url, '/');
    SplitCount(url, '/');
    if |parts| < 2 then None
    else
      var name := parts[|parts| - 1];
      var author := parts[|parts| - 2];
      Some(Derived(name, author, author + Separator + name, TempImagePrefix + name))
  }

  /** `convert_back_repo_format`: the GitHub prefix, then the id with every `___` turned into `/`. */
  function ConvertBackRepoFormat(repo: string): (url: string)
    ensures StartsWith(url, GitHubPrefix)
  {
    var url := GitHubPrefix + Replace(repo, Separator, "/");
    assert url[..|GitHubPrefix|] == GitHubPrefix;
    url
  }

  /** A split has more than one part exactly when the separator occurs. */
  lemma {:induction false} SplitCount(s: string, sep: char)
    ensures |Split(s, sep)| > 1 <==> sep in s
  {
    if s != [] {
      SplitCount(s[1..], sep);
      assert s == [s[0]] + s[1..];
    }
  }

  /**
   * `DeriveIds` recovers author and name from any URL ending in
   * `/<author>/<name>`.
   */
  lemma DeriveFromUrl(prefix: string, author: string, name: string)
    requires '/' !in author && '/' !in name
    ensures DeriveIds(prefix + "/" + author + "/" + name) ==
      Some(Derived(name, author, author + Separator + name, TempImagePrefix + name))
  {
    var url := prefix + "/" + author + "/" + name;
    assert url == (prefix + "/" + author) + ['/'] + name;
    SplitLast(prefix + "/" + author, '/', name);
    assert prefix + "/" + author == prefix + ['/'] + author;
    SplitLast(prefix, '/', author);
  }

  /** No `___` of the id starts inside such an author. */
  lemma NoSeparatorInAuthor(author: string, name: string, j: nat)
    requires !Contains(author, Separator) && !EndsWith(author, "_")
    requires j < |author|
    ensures !MatchesAt(author + Separator + name, Separator, j)
  {
    var s := author + Separator + name;
    if j + 3 <= |author| {
      assert s[j..j + 3] == author[j..j + 3];
      assert !MatchesAt(author, Separator, j);
    } else {
      var k := |author| - 1;
      assert author[k..] == [author[k]];
      assert s[j..j + 3][k - j] == author[k] != '_' == Separator[k - j];
      assert s[j..j + 3] != Separator;
    }
  }

  /**
   * Converting an id back: for an author that neither contains `___` nor
   * ends with `_`, and a name without `___`, the id's separator is the only
   * match and the rest is copied.
   */
  lemma ConvertBackJoined(author: string, name: string)
    requires !Contains(author, Separator) && !EndsWith(author, "_")
    requires !Contains(name, Separator)
    ensures ConvertBackRepoFormat(author + Separator + name) == GitHubPrefix + author + "/" + name
  {
    var s := author + Separator + name;
    forall j | 0 <= j < |author| ensures !MatchesAt(s, Separator, j) {
      NoSeparatorInAuthor(author, name, j);
    }
    ReplaceSkip(s, Separator, "/", |author|);
    assert s[..|author|] == author;
    assert s[|author|..] == Separator + name;
    assert (Separator + name)[..3] == Separator && (Separator + name)[3..] == name;
    ReplaceAbsent(name, Separator, "/");
  }

  /**
   * The round trip `convert_back_repo_format` promises: a GitHub URL
   * `https://github.com/<author>/<name>` is recovered from the id
   * `install_repo` derives from it.
   */
  lemma RoundTrip(author: string, name: string)
    requires '/' !in author && '/' !in name
    requires !Contains(author, Separator) && !EndsWith(author, "_")
    requires !Contains(name, Separator)
    ensures var url := GitHubPrefix + author + "/" + name;
      DeriveIds(url).Some? && ConvertBackRepoFormat(DeriveIds(url).value.repoId) == url
  {
    assert GitHubPrefix == "https://github.com" + "/";
    DeriveFromUrl("https://github.com", author, name);
    ConvertBackJoined(author, name);
  }

  /**
   * The condition on the author's last character is needed: for the author
   * `a_` the id is `a____b`, whose first `___` starts inside the author.
   */
  lemma AuthorEndingInUnderscoreBreaksRoundTrip()
    ensures ConvertBackRepoFormat("a_" + Separator + "b") == GitHubPrefix + "a/_b"
    ensures ConvertBackRepoFormat("a_" + Separator + "b") != GitHubPrefix + "a_/b"
  {
    assert "a_" + Separator + "b" == "a____b";
    assert Replace("a____b", Separator, "/") == "a" + Replace("____b", Separator, "/");
    assert Replace("____b", Separator, "/") == "/" + Replace("_b", Separator, "/");
    assert (GitHubPrefix + "a/_b")[|GitHubPrefix| + 1] == '/';
    assert (GitHubPrefix + "a_/b")[|GitHubPrefix| + 1] == '_';
  }
}
