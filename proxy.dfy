/** `getProxiedUrl`: the URL the page uses to display a thumbnail or preview.
    Images on hosts that refuse hot-linking are routed through the wsrv.nl image
    cache, flattened onto white and re-encoded as JPEG; every other URL is used
    as it is. `encode` stands for `encodeURIComponent`, left uninterpreted. */
module Proxy {
  import opened Text

  /** Host fragments whose images are shown through the cache. */
  const ProxiedHosts: seq<string> := ["pstatic.net", "blog.naver.com", "daumcdn.net", "kakaocdn.net"]

  const WsrvPrefix: string := "https://wsrv.nl/?url="
  const DisplaySuffix: string := "&output=jpg&bg=white"

  /** Some proxied host fragment occurs somewhere in `url`. */
  predicate MentionsProxiedHost(url: string)
  {
    exists h, i: nat :: h in ProxiedHosts && i <= |url| && OccursAt(url, h, i)
  }

  function GetProxiedUrl(url: string, encode: string -> string): (r: string)
    ensures MentionsProxiedHost(url) ==> r == WsrvPrefix + encode(url) + DisplaySuffix
    ensures !MentionsProxiedHost(url) ==> r == url
  {
    IncludesIff(url, ProxiedHosts[0]);
    IncludesIff(url, ProxiedHosts[1]);
    IncludesIff(url, ProxiedHosts[2]);
    IncludesIff(url, ProxiedHosts[3]);
    if Includes(url, "pstatic.net") || Includes(url, "blog.naver.com")
       || Includes(url, "daumcdn.net") || Includes(url, "kakaocdn.net")
    then WsrvPrefix + encode(url) + DisplaySuffix
    else url
  }

  /** `url` has the shape of a display URL built by `GetProxiedUrl`. */
  predicate IsDisplayProxyUrl(url: string)
  {
    |WsrvPrefix| + |DisplaySuffix| <= |url|
    && WsrvPrefix <= url
    && url[|url| - |DisplaySuffix|..] == DisplaySuffix
  }

  /** The image a URL finally designates: for a display proxy URL, the decoded
      `url` query parameter; otherwise the URL itself. */
  function DisplayTarget(url: string, decode: string -> string): string
  {
    if IsDisplayProxyUrl(url)
    then decode(url[|WsrvPrefix|..|url| - |DisplaySuffix|])
    else url
  }

  /** Proxying never changes which image is shown: whenever decoding undoes the
      encoding of `url`, the cache is asked for exactly `url`, and a URL that is
      not itself a display proxy URL designates itself when left alone. */
  lemma ProxyKeepsTarget(url: string, encode: string -> string, decode: string -> string)
    requires decode(encode(url)) == url
    requires !IsDisplayProxyUrl(url)
    ensures DisplayTarget(GetProxiedUrl(url, encode), decode) == url
  {
    var r := GetProxiedUrl(url, encode);
    if MentionsProxiedHost(url) {
      assert r[|WsrvPrefix|..|r| - |DisplaySuffix|] == encode(url);
      assert r[|r| - |DisplaySuffix|..] == DisplaySuffix;
    }
  }

  /** Any URL in which one of the host fragments appears, wherever it appears,
      is sent through the cache. */
  lemma HostFragmentIsProxied(before: string, h: string, after: string, encode: string -> string)
    requires h in ProxiedHosts
    ensures GetProxiedUrl(before + h + after, encode) == WsrvPrefix + encode(before + h + after) + DisplaySuffix
  {
    var url := before + h + after;
    IncludesInfix(before, h, after);
    IncludesIff(url, h);
    var i: nat :| OccursAt(url, h, i);
    assert i <= |url|;
  }
}
