/** Address and website shortening of src/utils/blockchainUtils.ts:
    `formatAddressV2`, `formatAddressV3`, `shortenAddress` and
    `shortenWebsite`, all built on JavaScript `slice`. */
module AddressFormat {
  import opened JsStrings
  import opened Common

  function Min(a: int, b: int): int { if a < b then a else b }
  function Max(a: int, b: int): int { if a < b then b else a }

  /** `formatAddressV2`: the last six characters, or the whole string when
      it is shorter. */
  function FormatAddressV2(address: string): (r: string)
    ensures |r| == Min(6, |address|)
    ensures r == address[|address| - |r|..]
    ensures |address| <= 6 ==> r == address
  {
    SliceFrom(address, -6)
  }

  /** `formatAddressV3`: the first five characters, an ellipsis, the last four. */
  function FormatAddressV3(address: string): (r: string)
    ensures |r| == Min(5, |address|) + 3 + Min(4, |address|)
    ensures r[..Min(5, |address|)] == address[..Min(5, |address|)]
    ensures r[Min(5, |address|)..Min(5, |address|) + 3] == "..."
    ensures r[Min(5, |address|) + 3..] == address[|address| - Min(4, |address|)..]
  {
    Slice(address, 0, 5) + "..." + SliceFrom(address, -4)
  }

  /** `shortenAddress`: the characters at positions 2 to 7. */
  function ShortenAddress(address: string): (r: string)
    ensures |r| == Min(6, Max(0, |address| - 2))
    ensures |address| > 2 ==> r == address[2..2 + |r|]
  {
    Slice(address, 2, 8)
  }

  // ---- shortenWebsite ----

  const Http: string := "http://"
  const Https: string := "https://"

  /** Does the pattern `(http|https):\/\/` match at position `i`? At any one
      position at most one alternative can match. */
  predicate SchemeAt(s: string, i: nat)
  {
    (i + 7 <= |s| && s[i..i + 7] == Http) || (i + 8 <= |s| && s[i..i + 8] == Https)
  }

  function SchemeLengthAt(s: string, i: nat): (n: nat)
    requires SchemeAt(s, i)
    ensures i + n <= |s|
  {
    if i + 7 <= |s| && s[i..i + 7] == Http then 7 else 8
  }

  /** The leftmost position at or after `from` where the pattern matches. */
  function FirstSchemeFrom(s: string, from: nat): (r: Option<nat>)
    requires from <= |s|
    ensures r.Some? ==> from <= r.value < |s| && SchemeAt(s, r.value)
    ensures forall i :: from <= i < (if r.Some? then r.value else |s|) ==> !SchemeAt(s, i)
    decreases |s| - from
  {
    if from == |s| then None
    else if SchemeAt(s, from) then Some(from)
    else FirstSchemeFrom(s, from + 1)
  }

  /** `s.replace(/(http|https):\/\//, '')`: the pattern is not anchored and
      has no `g` flag, so only its leftmost match, wherever it is, is removed. */
  function StripScheme(s: string): (r: string)
    ensures |r| <= |s|
    ensures (forall i :: 0 <= i < |s| ==> !SchemeAt(s, i)) ==> r == s
    ensures (exists i :: 0 <= i < |s| && SchemeAt(s, i)) ==>
      exists i :: 0 <= i < |s| && SchemeAt(s, i) && (forall j :: 0 <= j < i ==> !SchemeAt(s, j))
        && |r| == |s| - SchemeLengthAt(s, i) && r == s[..i] + s[i + SchemeLengthAt(s, i)..]
  {
    match FirstSchemeFrom(s, 0)
    case None => s
    case Some(i) => s[..i] + s[i + SchemeLengthAt(s, i)..]
  }

  /** A leading `https://` is exactly what is removed. */
  lemma StripLeadingHttps(t: string)
    ensures StripScheme(Https + t) == t
  {
    var s := Https + t;
    assert s[0..8] == Https;
    assert s[0..7][4] == 's' != Http[4];
    assert FirstSchemeFrom(s, 0) == Some(0);
    assert s[8..] == t;
  }

  /** A leading `http://` is exactly what is removed. */
  lemma StripLeadingHttp(t: string)
    ensures StripScheme(Http + t) == t
  {
    var s := Http + t;
    assert s[0..7] == Http;
    assert FirstSchemeFrom(s, 0) == Some(0);
    assert s[7..] == t;
  }

  /** `shortenWebsite` as written: the slash is looked up in the stripped
      string but the cut is applied to the original one, and a missing slash
      (index -1) makes `slice(0, -1)` drop the last character. */
  function ShortenWebsite(address: string): (r: string)
    ensures address == "" ==> r == ""
    ensures |r| <= |address| && r == address[..|r|]
    ensures address != "" && '/' !in StripScheme(address) ==> r == address[..|address| - 1]
    ensures '/' in StripScheme(address) ==> |r| == IndexOf(StripScheme(address), '/')
  {
    if address == "" then ""
    else Slice(address, 0, IndexOf(StripScheme(address), '/'))
  }

  const SampleUrl: string := "https://a.io/x"

  lemma SampleUrlSlashIndex()
    ensures IndexOf(StripScheme(SampleUrl), '/') == 4
  {
    var s := SampleUrl;
    assert SchemeAt(s, 0) by { assert s[0..8] == Https; }
    assert s[0..7][4] == 's' != Http[4];
    assert FirstSchemeFrom(s, 0) == Some(0);
    assert SchemeLengthAt(s, 0) == 8;
    assert s[..0] + s[8..] == s[8..];
    var t := s[8..];
    assert t[4] == '/' && '/' !in t[..4];
  }

  /** With a scheme in front, the cut lands inside the scheme: the result is
      the first characters of `https://`, not the host. */
  lemma ShortenWebsiteCutsIntoScheme()
    ensures ShortenWebsite(SampleUrl) == "http"
  {
    SampleUrlSlashIndex();
    assert ShortenWebsite(SampleUrl) == SampleUrl[..4];
  }

  /** Without a slash after the host, the index -1 drops the last character. */
  lemma ShortenWebsiteDropsLastCharacter()
    ensures ShortenWebsite("a.io") == "a.i"
  {
    var t := "a.io";
    assert forall i :: 0 <= i < |t| ==> !SchemeAt(t, i);
    assert '/' !in t;
  }

  /** The evidently intended reading: cut the stripped string at its first
      slash, keeping all of it when there is none. */
  function ShortenWebsiteFixed(address: string): (r: string)
    ensures address == "" ==> r == ""
    ensures '/' !in r
    ensures |r| <= |StripScheme(address)| && r == StripScheme(address)[..|r|]
    ensures '/' !in StripScheme(address) ==> r == StripScheme(address)
    ensures '/' in StripScheme(address) ==>
      |r| < |StripScheme(address)| && StripScheme(address)[|r|] == '/'
  {
    if address == "" then ""
    else
      var stripped := StripScheme(address);
      var k := IndexOf(stripped, '/');
      if k < 0 then stripped else stripped[..k]
  }

  /** For `https://host/path` with a slash-free host the corrected function
      yields exactly the host. */
  lemma ShortenWebsiteFixedGivesHost(host: string, path: string)
    requires '/' !in host
    ensures ShortenWebsiteFixed(Https + host + "/" + path) == host
  {
    var rest := host + "/" + path;
    assert Https + host + "/" + path == Https + rest;
    StripLeadingHttps(rest);
    var stripped := StripScheme(Https + rest);
    assert stripped[|host|] == '/';
    assert stripped[..|host|] == host;
    assert IndexOf(stripped, '/') == |host|;
  }

  /** The same for `http://host/path`. */
  lemma ShortenWebsiteFixedGivesHttpHost(host: string, path: string)
    requires '/' !in host
    ensures ShortenWebsiteFixed(Http + host + "/" + path) == host
  {
    var rest := host + "/" + path;
    assert Http + host + "/" + path == Http + rest;
    StripLeadingHttp(rest);
    var stripped := StripScheme(Http + rest);
    assert stripped[|host|] == '/';
    assert stripped[..|host|] == host;
    assert IndexOf(stripped, '/') == |host|;
  }
}
