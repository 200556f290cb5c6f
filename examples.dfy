/** Concrete cases: the `x.git.git` strip and the `acme/widget` repository. */
module Examples {
  import opened Optional
  import opened RepoUrl

  lemma StripTwice()
    ensures StripGitSuffix("x.git.git") == "x.git"
  {
    StripAppended("x.git");
  }

  /** `https://github.com/acme/widget` has author `acme` and name `widget`. */
  lemma MatchGitHubExample()
    ensures MatchRepo("https://github.com/acme/widget") == Some(Repo("acme", "widget"))
  {
    assert "https://github.com/acme/widget" == "https://" + "github.com" + "/" + "acme" + "/" + "widget";
    NoTerminatorIn("github.com" + "/" + "acme" + "/" + "widget");
    SlashFree("acme");
    SlashFree("widget");
    MatchPlain("https://github.com/acme/widget", "https://", "github.com", "acme", "widget");
  }

  lemma NoTerminatorIn(s: string)
    requires s == "github.com/acme/widget"
    ensures !HasLineTerminator(s)
  {
    forall i | 0 <= i < |s| ensures !IsLineTerminator(s[i]) {
      assert s[i] in "github.com/acme/widget";
    }
  }

  lemma SlashFree(s: string)
    requires s == "acme" || s == "widget"
    ensures '/' !in s
  {
  }
}
