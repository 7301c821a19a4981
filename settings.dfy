/**
 * The tool's configuration, read from the `[review]` section of the local
 * git configuration (`load_all_config` / `loadConfig`).
 */
module Settings {
  import opened Wrappers
  import opened Text
  import opened Interfaces

  /** The two variants of the tool: `git_review.py` (Python 3) and `git-review.py` (Python 2). */
  datatype Variant = Current | Legacy

  /** Working branch, integration branch, remote name, GitHub user and API token. */
  datatype Config = Config(branch: string, main: string, origin: string, user: string, apiToken: string)

  const DefaultOrigin := "origin"

  /** The key naming the integration branch, which is also its default value: `main` or `master`. */
  function IntegrationKey(variant: Variant): string {
    match variant
    case Current => "main"
    case Legacy => "master"
  }

  /**
   * `git config --local --get review.<key>` with a default: git exits non-zero
   * for an unset key, which yields the default; a set key yields its value
   * as printed by git (followed by a newline) and stripped.
   */
  function Lookup(section: map<string, string>, key: string, default: string): (v: string)
    ensures key !in section ==> v == default
    ensures key in section ==> v == Strip(section[key])
  {
    if key in section then
      StripValue(section[key]);
      Strip(section[key] + "\n")
    else
      default
  }

  /** A required key resolves to "" when it is unset or set to whitespace only. */
  predicate Blank(section: map<string, string>, key: string) {
    key !in section || Strip(section[key]) == ""
  }

  /** Stripping a value and the newline git prints after it is stripping the value. */
  lemma StripValue(value: string)
    ensures Strip(value + "\n") == Strip(value)
  {
    var t := TrimStart(value);
    if t == [] {
      assert value == value[..|value|];
      assert AllSpace(value);
      AllSpaceStrip(value + "\n");
    } else {
      TrimStartAppend(value, "\n");
      TrimEndAppend(t, "\n");
    }
  }

  lemma {:induction false} AllSpaceStrip(s: string)
    requires AllSpace(s)
    ensures Strip(s) == ""
    decreases |s|
  {
    if s != [] {
      AllSpaceStrip(s[1..]);
    }
  }

  lemma {:induction false} TrimStartAppend(s: string, ws: string)
    requires TrimStart(s) != []
    ensures TrimStart(s + ws) == TrimStart(s) + ws
    decreases |s|
  {
    if IsSpace(s[0]) {
      assert (s + ws)[1..] == s[1..] + ws;
      TrimStartAppend(s[1..], ws);
    }
  }

  lemma {:induction false} TrimEndAppend(s: string, ws: string)
    requires AllSpace(ws)
    ensures TrimEnd(s + ws) == TrimEnd(s)
    decreases |ws|
  {
    if ws != [] {
      assert (s + ws)[..|s + ws| - 1] == s + ws[..|ws| - 1];
      TrimEndAppend(s, ws[..|ws| - 1]);
    } else {
      assert s + ws == s;
    }
  }

  /**
   * `load_all_config` / `loadConfig`: `branch`, then `api-token`, then `user`
   * must not resolve to ""; the integration branch and the remote fall back to
   * their defaults.
   */
  function LoadConfig(variant: Variant, section: map<string, string>): (r: Result<Config, Error>)
    ensures r.Success? <==> !Blank(section, "branch") && !Blank(section, "api-token") && !Blank(section, "user")
    ensures r == Failure(ConfigMissing("branch")) <==> Blank(section, "branch")
    ensures r == Failure(ConfigMissing("api-token")) <==> !Blank(section, "branch") && Blank(section, "api-token")
    ensures r == Failure(ConfigMissing("user"))
        <==> !Blank(section, "branch") && !Blank(section, "api-token") && Blank(section, "user")
    ensures r.Success? ==>
      && r.value.branch == Strip(section["branch"])
      && r.value.apiToken == Strip(section["api-token"])
      && r.value.user == Strip(section["user"])
      && r.value.main == (if IntegrationKey(variant) in section then Strip(section[IntegrationKey(variant)]) else IntegrationKey(variant))
      && r.value.origin == (if "origin" in section then Strip(section["origin"]) else DefaultOrigin)
  {
    var branch := Lookup(section, "branch", "");
    if branch == "" then Failure(ConfigMissing("branch"))
    else
      var apiToken := Lookup(section, "api-token", "");
      if apiToken == "" then Failure(ConfigMissing("api-token"))
      else
        var user := Lookup(section, "user", "");
        if user == "" then Failure(ConfigMissing("user"))
        else
          var main := Lookup(section, IntegrationKey(variant), IntegrationKey(variant));
          var origin := Lookup(section, "origin", DefaultOrigin);
          Success(Config(branch, main, origin, user, apiToken))
  }
}
