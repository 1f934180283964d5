/** The page metadata of src/components/seo/SEO.tsx: the `seo` object built
    from the optional props, the optional token and the public domain
    setting. The router's `asPath` and the environment value are
    parameters. */
module Seo {
  import opened Common

  datatype SeoToken = SeoToken(name: string, symbol: string, description: string, logo: string)

  datatype SeoTags = SeoTags(title: string, description: string, image: string, url: string)

  const DefaultDomain := "https://flarelaunch.net"
  const DefaultTitle := "Agent Pad - Your Memecoin home"
  const DefaultDescription :=
    "Flare Launch enables safe, community-driven token launches with no presales or team allocations."
  const ImagePath := "/default-og-image.jpg"
  const TitleSuffix := ") - Agent Pad"

  /** `process.env.NEXT_PUBLIC_DOMAIN || 'https://flarelaunch.net'`. */
  function Domain(env: Option<string>): (r: string)
    ensures r != ""
    ensures Truthy(env) ==> r == env.value
  {
    OrElse(env, DefaultDomain)
  }

  /** `${token.name} (${token.symbol}) - Agent Pad`. */
  function TokenTitle(t: SeoToken): (r: string)
  {
    t.name + " (" + t.symbol + TitleSuffix
  }

  /** `token?.description`. */
  function TokenDescription(token: Option<SeoToken>): (r: Option<string>)
    ensures r.Some? <==> token.Some?
  {
    if token.Some? then Some(token.value.description) else None
  }

  /** `token?.logo`. */
  function TokenLogo(token: Option<SeoToken>): (r: Option<string>)
    ensures r.Some? <==> token.Some?
  {
    if token.Some? then Some(token.value.logo) else None
  }

  function BuildSeo(title: Option<string>, description: Option<string>, image: Option<string>,
                    token: Option<SeoToken>, domainEnv: Option<string>, asPath: string): (r: SeoTags)
    ensures token.Some? ==> r.title == TokenTitle(token.value)
    ensures token.None? ==> r.title == OrElse(title, DefaultTitle)
    ensures r.description == FirstTruthy(TokenDescription(token), description, DefaultDescription)
    ensures r.image == FirstTruthy(TokenLogo(token), image, Domain(domainEnv) + ImagePath)
    ensures r.url == Domain(domainEnv) + asPath
  {
    SeoTags(
      if token.Some? then TokenTitle(token.value) else OrElse(title, DefaultTitle),
      FirstTruthy(TokenDescription(token), description, DefaultDescription),
      FirstTruthy(TokenLogo(token), image, Domain(domainEnv) + ImagePath),
      Domain(domainEnv) + asPath)
  }

  /** No tag is ever empty, so the head never carries a blank title,
      description or image: each falls back to a non-empty default, and a
      token title always carries the site suffix. */
  lemma NoTagIsEmpty(title: Option<string>, description: Option<string>, image: Option<string>,
                     token: Option<SeoToken>, domainEnv: Option<string>, asPath: string)
    ensures var r := BuildSeo(title, description, image, token, domainEnv, asPath);
      r.title != "" && r.description != "" && r.image != "" && r.url != ""
  {
  }

  /** With a token the page title is the token's, whatever title prop is
      passed; an empty token description or logo falls through to the
      props, as a missing one does. */
  lemma TokenOverridesProps(title1: Option<string>, title2: Option<string>, description: Option<string>,
                            image: Option<string>, t: SeoToken, domainEnv: Option<string>, asPath: string)
    ensures BuildSeo(title1, description, image, Some(t), domainEnv, asPath)
         == BuildSeo(title2, description, image, Some(t), domainEnv, asPath)
    ensures t.description == "" && t.logo == "" ==>
      BuildSeo(title1, description, image, Some(t), domainEnv, asPath).(title := "")
      == BuildSeo(title1, description, image, None, domainEnv, asPath).(title := "")
  {
  }

  /** An empty domain setting behaves like a missing one, and the page URL
      then starts with the default domain. */
  lemma DomainPrefixesUrls(title: Option<string>, description: Option<string>, image: Option<string>,
                           token: Option<SeoToken>, asPath: string)
    ensures var r := BuildSeo(title, description, image, token, Some(""), asPath);
      r == BuildSeo(title, description, image, token, None, asPath)
      && r.url[..|DefaultDomain|] == DefaultDomain
  {
  }
}
