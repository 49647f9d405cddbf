/** The API address helpers of the mini-app (miniapps/ait-webview/src/lib/apiBase.ts):
    the origin the app talks to, taken from the build's `VITE_API_BASE` or
    chosen by platform, and the join of that origin with a request path.
    The two build-time environment values are parameters. */
module ApiBase {
  import opened JsValue
  import opened JsString

  /** The deployed origin the Toss mini-app build talks to by default. */
  const TossOrigin: string := "https://epi-log-main.vercel.app"

  /** `value.replace(/\/$/, "")`: one trailing slash is dropped. */
  function NormalizeBase(value: string): (r: string)
    ensures EndsWith(value, "/") <==> value == r + "/"
    ensures !EndsWith(value, "/") <==> r == value
  {
    if value != [] && value[|value| - 1] == '/' then value[..|value| - 1] else value
  }

  /** Only one slash goes: the result may still end with one. */
  lemma NormalizeDropsOneSlash()
    ensures NormalizeBase("https://a.example//") == "https://a.example/"
  {
  }

  /** `getApiBase`: a non-empty `VITE_API_BASE`, trimmed and without its
      trailing slash; failing that the Toss origin on the Toss platform, and
      the page's own origin (the empty base) elsewhere. */
  function GetApiBase(viteApiBase: Option<string>, platform: Option<string>): (base: string)
    ensures StrTruthy(viteApiBase) ==> base == NormalizeBase(Trim(viteApiBase.value))
    ensures !StrTruthy(viteApiBase) ==> (base == TossOrigin <==> platform == Some("TOSS"))
    ensures !StrTruthy(viteApiBase) && platform != Some("TOSS") ==> base == ""
  {
    var raw := StrOr(viteApiBase, "");
    if raw != "" then NormalizeBase(Trim(raw))
    else if platform == Some("TOSS") then TossOrigin
    else ""
  }

  /** A `VITE_API_BASE` of white space only is set, so it wins over the
      platform default and leaves the empty base, even on Toss. */
  lemma BlankBaseIsSameOrigin(raw: string, platform: Option<string>)
    requires raw != [] && AllWs(raw)
    ensures GetApiBase(Some(raw), platform) == ""
  {
  }

  /** The join `apiUrl` makes: the path as it is behind the empty base;
      otherwise the base, then the path with exactly one slash added in front
      when it has none of its own. */
  function JoinUrl(base: string, path: string): (url: string)
    ensures base == "" ==> url == path
    ensures base != "" ==> StartsWith(url, base) && EndsWith(url, path)
    ensures base != "" && StartsWith(path, "/") ==> |url| == |base| + |path|
    ensures base != "" && !StartsWith(path, "/") ==> |url| == |base| + 1 + |path| && url[|base|] == '/'
  {
    if base == "" then path
    else if !StartsWith(path, "/") then base + "/" + path
    else base + path
  }

  /** `apiUrl`: the request path joined to `getApiBase`'s origin. */
  function ApiUrl(viteApiBase: Option<string>, platform: Option<string>, path: string): (url: string)
    ensures GetApiBase(viteApiBase, platform) == "" ==> url == path
    ensures GetApiBase(viteApiBase, platform) != "" ==> StartsWith(url, GetApiBase(viteApiBase, platform))
  {
    JoinUrl(GetApiBase(viteApiBase, platform), path)
  }

  /** Behind a base, the request part of the address always starts with a
      slash, and stripping that slash when the path lacked it gives the path
      back, so the base and the path are both recovered from the address. */
  lemma JoinUrlSplits(base: string, path: string)
    requires base != ""
    ensures |base| < |JoinUrl(base, path)|
    ensures JoinUrl(base, path)[..|base|] == base
    ensures StartsWith(path, "/") ==> JoinUrl(base, path)[|base|..] == path
    ensures !StartsWith(path, "/") ==> JoinUrl(base, path)[|base|..] == "/" + path
  {
    if StartsWith(path, "/") {
      assert JoinUrl(base, path) == base + path;
    } else {
      assert JoinUrl(base, path) == base + "/" + path;
    }
  }
}
