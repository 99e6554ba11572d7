/**
 * The content documents the storefront reads from the content API: the
 * header and the footer, with their nested records. Every optional property
 * of the documents is an `Option`.
 */
module ContentTypes {
  import opened Wrappers

  /** One navigation entry of the header. */
  datatype NavItem = NavItem(name: string, href: string)

  /** The image asset a logo points to. */
  datatype Asset = Asset(url: Option<string>)

  /**
   * A logo as the content API delivers it (an asset reference and an
   * optional alternative text), or as the storefront flattens it (the asset's
   * URL and an alternative text that is always set). `flatAlt` is the
   * flattened logo's `alt`; it has its own name because its type differs
   * from the optional `alt` of the delivered logo.
   */
  datatype Logo =
    | SanityLogo(asset: Option<Asset>, alt: Option<string>)
    | FlatLogo(url: Option<string>, flatAlt: string)

  /** A document with a logo and the fields particular to its kind. */
  datatype Document<F> = Document(logo: Option<Logo>, fields: F)

  datatype MarqueeText = MarqueeText(enabled: bool, content: string)

  datatype Marquee = Marquee(
    enabled: bool,
    text1: Option<MarqueeText>,
    text2: Option<MarqueeText>,
    text3: Option<MarqueeText>,
    linkUrl: Option<string>,
    pauseOnHover: Option<bool>)

  datatype HeaderFields = HeaderFields(
    storeName: Option<string>,
    logoHeight: Option<int>,
    navigation: Option<seq<NavItem>>,
    marquee: Option<Marquee>)

  datatype FooterLink = FooterLink(text: string, url: string)

  datatype FooterSection = FooterSection(title: string, links: Option<seq<FooterLink>>)

  datatype ContactInfo = ContactInfo(phone: Option<string>, email: Option<string>)

  datatype SocialMediaItem = SocialMediaItem(enabled: bool, url: Option<string>)

  datatype SocialMedia = SocialMedia(
    facebook: Option<SocialMediaItem>,
    instagram: Option<SocialMediaItem>,
    line: Option<SocialMediaItem>,
    youtube: Option<SocialMediaItem>,
    twitter: Option<SocialMediaItem>)

  datatype FooterFields = FooterFields(
    title: Option<string>,
    logoWidth: Option<int>,
    sections: Option<seq<FooterSection>>,
    contactInfo: Option<ContactInfo>,
    socialMedia: Option<SocialMedia>,
    copyright: Option<string>)

  type Header = Document<HeaderFields>

  type Footer = Document<FooterFields>
}
