/** The configuration folder and the paths derived from it. The folder comes
    from the CONFIG_DIR environment variable, "/app/config/" when unset. */
module Config {
  import opened Wrappers

  predicate IsSeparator(c: char) {
    c == '/' || c == '\\'
  }

  predicate EndsWithSeparator(p: string) {
    |p| > 0 && IsSeparator(p[|p| - 1])
  }

  /** ensureTrailingSlash; None stands for a null path. */
  function EnsureTrailingSlash(path: Option<string>): (r: string)
    ensures EndsWithSeparator(r)
    ensures path.None? || path == Some("") ==> r == "./config/"
    ensures path.Some? && EndsWithSeparator(path.value) ==> r == path.value
    ensures path.Some? && path.value != "" && !EndsWithSeparator(path.value) ==> r == path.value + "/"
  {
    if path.None? || path.value == "" then "./config/"
    else if EndsWithSeparator(path.value) then path.value
    else path.value + "/"
  }

  /** Applying ensureTrailingSlash to its own result changes nothing. */
  lemma EnsureTrailingSlashIdempotent(path: Option<string>)
    ensures EnsureTrailingSlash(Some(EnsureTrailingSlash(path))) == EnsureTrailingSlash(path)
  {
  }

  const DefaultConfigDir: string := "/app/config/"

  /** CONFIG_FOLDER; `configDir` is the CONFIG_DIR variable, None when unset. */
  function ConfigFolder(configDir: Option<string>): string {
    EnsureTrailingSlash(Some(if configDir.Some? then configDir.value else DefaultConfigDir))
  }

  function ConfigFilePath(configDir: Option<string>): string {
    ConfigFolder(configDir) + "config.json"
  }

  function CookieFilePath(configDir: Option<string>): string {
    ConfigFolder(configDir) + "cookies.txt"
  }

  function BaseDownloadFolder(configDir: Option<string>): string {
    ConfigFolder(configDir) + "downloads/"
  }

  /** Each derived path is the folder, a separator, and then the file or
      folder name; with CONFIG_DIR unset they live under /app/config/, and an
      empty CONFIG_DIR falls back to ./config/. */
  lemma DerivedPaths(configDir: Option<string>)
    ensures var f := ConfigFolder(configDir);
      && EndsWithSeparator(f)
      && ConfigFilePath(configDir)[..|f|] == f && ConfigFilePath(configDir)[|f|..] == "config.json"
      && CookieFilePath(configDir)[..|f|] == f && CookieFilePath(configDir)[|f|..] == "cookies.txt"
      && BaseDownloadFolder(configDir)[..|f|] == f && BaseDownloadFolder(configDir)[|f|..] == "downloads/"
      && EndsWithSeparator(BaseDownloadFolder(configDir))
    ensures configDir.None? ==> ConfigFilePath(configDir) == "/app/config/config.json"
    ensures configDir == Some("") ==> ConfigFilePath(configDir) == "./config/config.json"
  {
  }
}
