/**
 * How a proposer's reply becomes a command: the normalisation of the
 * language model's answer (identical in reduced.py and installer.py), the
 * two "run the oracle" sentinels and the `bash -c` wrapping.  `shlex.quote`
 * is not modelled: it is passed in as an uninterpreted function `quote`.
 */
module Commands {
  import opened StringUtils

  const BashFence: string := "```bash"
  /** The sentinel of reduced.py: exactly this text consults the oracle. */
  const ReducedSentinel: string := "RUN ORACLE"
  /** The sentinel of installer.py. */
  const InstallerSentinel: string := "RUN ORACLE TESTS"
  const VenvPrefix: string := "source .venv/bin/activate && "
  const BashPrefix: string := "bash -c "
  const ReposRoot: string := "/repos"

  /**
   * `content.strip().replace("```bash", "").replace("`", "").replace("\n", "")`:
   * whatever the model answered, the suggestion holds no backtick and no
   * newline.
   */
  function Normalise(content: string): (r: string)
    ensures '`' !in r && '\n' !in r
  {
    var stripped := Strip(content);
    var unfenced := Replace(stripped, BashFence, "");
    var unticked := Replace(unfenced, "`", "");
    ReplaceRemovesChar(unfenced, '`', "");
    ReplaceKeepsAbsent(unticked, "\n", "", '`');
    ReplaceRemovesChar(unticked, '\n', "");
    Replace(unticked, "\n", "")
  }

  /**
   * A reply that is already a plain one-line command only loses its
   * surrounding white space; so does a sentinel, which has neither a
   * backtick nor a newline.
   */
  lemma NormaliseKeepsPlainReply(content: string)
    requires '`' !in Strip(content) && '\n' !in Strip(content)
    ensures Normalise(content) == Strip(content)
  {
    var stripped := Strip(content);
    NotContainsMissingChar(stripped, BashFence, 0);
    ReplaceAbsent(stripped, BashFence, "");
    NotContainsMissingChar(stripped, "`", 0);
    ReplaceAbsent(stripped, "`", "");
    NotContainsMissingChar(stripped, "\n", 0);
    ReplaceAbsent(stripped, "\n", "");
  }

  /**
   * reduced.py: `f"bash -c {shlex.quote('source .venv/bin/activate && ' + cmd)}"`.
   * `bash -c` receives, as its one argument, the quoted suggestion run
   * inside the virtual environment.
   */
  function ReducedCommand(quote: string -> string, suggestion: string): (r: string)
    ensures StartsWith(r, BashPrefix) && r[|BashPrefix|..] == quote(VenvPrefix + suggestion)
  {
    BashPrefix + quote(VenvPrefix + suggestion)
  }

  /**
   * installer.py: `f"bash -c {shlex.quote(command)}"`, with no
   * virtual-environment prefix: `bash -c` receives the quoted command itself.
   */
  function InstallerCommand(quote: string -> string, command: string): (r: string)
    ensures StartsWith(r, BashPrefix) && r[|BashPrefix|..] == quote(command)
  {
    BashPrefix + quote(command)
  }

  /** installer.py's working directory, `'/repos' + '/' + repo_name`: the repository's own directory under `/repos`. */
  function InstallerWorkdir(repoName: string): (r: string)
    ensures StartsWith(r, ReposRoot + "/") && r[|ReposRoot| + 1..] == repoName
  {
    ReposRoot + "/" + repoName
  }

  /**
   * With a quoting function that loses nothing (`shlex.quote` maps distinct
   * strings to distinct strings), distinct suggestions become distinct
   * commands: the wrapping never merges two suggestions.
   */
  lemma ReducedCommandInjective(quote: string -> string, a: string, b: string)
    requires forall x, y :: quote(x) == quote(y) ==> x == y
    ensures ReducedCommand(quote, a) == ReducedCommand(quote, b) ==> a == b
  {
    if ReducedCommand(quote, a) == ReducedCommand(quote, b) {
      assert quote(VenvPrefix + a) == quote(VenvPrefix + b);
      assert (VenvPrefix + a)[|VenvPrefix|..] == a;
      assert (VenvPrefix + b)[|VenvPrefix|..] == b;
    }
  }

  /**
   * installer.py's wrapping loses nothing either: with an injective `quote`,
   * distinct commands give distinct `bash -c` invocations.
   */
  lemma InstallerCommandInjective(quote: string -> string, a: string, b: string)
    requires forall x, y :: quote(x) == quote(y) ==> x == y
    ensures InstallerCommand(quote, a) == InstallerCommand(quote, b) ==> a == b
  {
    if InstallerCommand(quote, a) == InstallerCommand(quote, b) {
      assert quote(a) == InstallerCommand(quote, a)[|BashPrefix|..];
      assert quote(b) == InstallerCommand(quote, b)[|BashPrefix|..];
    }
  }

  /** Distinct repositories get distinct working directories. */
  lemma InstallerWorkdirInjective(a: string, b: string)
    ensures InstallerWorkdir(a) == InstallerWorkdir(b) ==> a == b
  {
    if InstallerWorkdir(a) == InstallerWorkdir(b) {
      assert a == InstallerWorkdir(a)[|ReposRoot| + 1..];
      assert b == InstallerWorkdir(b)[|ReposRoot| + 1..];
    }
  }
}
