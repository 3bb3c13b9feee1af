/** The four tag-to-resource tables of the binding adapters: each maps a
    string tag to a drawable or a button tint, with a default for every tag
    it does not list.  Tags match exactly and case-sensitively. */
module Resources {

  import opened Wrappers

  /** The `R.drawable` icons the tables pick from. */
  datatype Drawable =
    | IcGithub | IcLinkedin | IcTwitter | IcPdf | IcGlobe
    | IcCategoryAndroid | IcCategoryWeb | IcCategoryCode | IcCategoryStructure
    | IcPlayStore | IcYoutube

  /** The `R.color` button tints. */
  datatype ButtonColor =
    | ButtonGithubColor | ButtonGoogleColor | ButtonWebColor | ButtonTwitterColor | ButtonYoutubeColor

  // Social link tags.
  const SocialGithub: string := "GITHUB"
  const SocialLinkedin: string := "LINKEDIN"
  const SocialTwitter: string := "TWITTER"
  const SocialPdf: string := "PDF"
  const SocialTags: set<string> := {SocialGithub, SocialLinkedin, SocialTwitter, SocialPdf}

  // Project category tags.
  const CategoryAndroid: string := "ANDROID"
  const CategoryWeb: string := "WEB"
  const CategoryCode: string := "CODE"
  const CategoryTags: set<string> := {CategoryAndroid, CategoryWeb, CategoryCode}

  // Project button tags.
  const ButtonGithub: string := "GITHUB"
  const ButtonGoogle: string := "GOOGLE"
  const ButtonWeb: string := "WEB"
  const ButtonYoutube: string := "YOUTUBE"
  const ButtonTwitter: string := "TWITTER"
  const ButtonTags: set<string> := {ButtonGithub, ButtonGoogle, ButtonWeb, ButtonYoutube, ButtonTwitter}

  /** The social icon for `name`; the globe for any tag not listed. */
  function SocialIcon(name: string): (r: Drawable)
    ensures r in {IcGithub, IcLinkedin, IcTwitter, IcPdf, IcGlobe}
    ensures r == IcGlobe <==> name !in SocialTags
    ensures SocialTagOf(r) == if name in SocialTags then Some(name) else None
  {
    if name == SocialGithub then IcGithub
    else if name == SocialLinkedin then IcLinkedin
    else if name == SocialTwitter then IcTwitter
    else if name == SocialPdf then IcPdf
    else IcGlobe
  }

  /** The social tag an icon stands for: the table read backwards. */
  function SocialTagOf(icon: Drawable): Option<string> {
    match icon
    case IcGithub => Some(SocialGithub)
    case IcLinkedin => Some(SocialLinkedin)
    case IcTwitter => Some(SocialTwitter)
    case IcPdf => Some(SocialPdf)
    case _ => None
  }

  /** The category icon for `icon`; the generic structure icon for any tag not listed. */
  function CategoryIcon(icon: string): (r: Drawable)
    ensures r in {IcCategoryAndroid, IcCategoryWeb, IcCategoryCode, IcCategoryStructure}
    ensures r == IcCategoryStructure <==> icon !in CategoryTags
    ensures CategoryTagOf(r) == if icon in CategoryTags then Some(icon) else None
  {
    if icon == CategoryAndroid then IcCategoryAndroid
    else if icon == CategoryWeb then IcCategoryWeb
    else if icon == CategoryCode then IcCategoryCode
    else IcCategoryStructure
  }

  function CategoryTagOf(icon: Drawable): Option<string> {
    match icon
    case IcCategoryAndroid => Some(CategoryAndroid)
    case IcCategoryWeb => Some(CategoryWeb)
    case IcCategoryCode => Some(CategoryCode)
    case _ => None
  }

  /** The button icon for `kind`; the pdf icon for any tag not listed. */
  function ButtonIcon(kind: string): (r: Drawable)
    ensures r in {IcGithub, IcPlayStore, IcCategoryWeb, IcYoutube, IcTwitter, IcPdf}
    ensures r == IcPdf <==> kind !in ButtonTags
    ensures ButtonTagOfIcon(r) == if kind in ButtonTags then Some(kind) else None
  {
    if kind == ButtonGithub then IcGithub
    else if kind == ButtonGoogle then IcPlayStore
    else if kind == ButtonWeb then IcCategoryWeb
    else if kind == ButtonYoutube then IcYoutube
    else if kind == ButtonTwitter then IcTwitter
    else IcPdf
  }

  function ButtonTagOfIcon(icon: Drawable): Option<string> {
    match icon
    case IcGithub => Some(ButtonGithub)
    case IcPlayStore => Some(ButtonGoogle)
    case IcCategoryWeb => Some(ButtonWeb)
    case IcYoutube => Some(ButtonYoutube)
    case IcTwitter => Some(ButtonTwitter)
    case _ => None
  }

  /** The tags that have a tint of their own; YOUTUBE is not one of them. */
  const TintedButtonTags: set<string> := {ButtonGithub, ButtonGoogle, ButtonWeb, ButtonTwitter}

  /** The button tint for `kind`; the youtube tint for any other tag,
      YOUTUBE itself included. */
  function ButtonBackground(kind: string): (r: ButtonColor)
    ensures r == ButtonYoutubeColor <==> kind !in TintedButtonTags
    ensures ButtonTagOfColor(r) == if kind in TintedButtonTags then Some(kind) else None
  {
    if kind == ButtonGithub then ButtonGithubColor
    else if kind == ButtonGoogle then ButtonGoogleColor
    else if kind == ButtonWeb then ButtonWebColor
    else if kind == ButtonTwitter then ButtonTwitterColor
    else ButtonYoutubeColor
  }

  function ButtonTagOfColor(color: ButtonColor): Option<string> {
    match color
    case ButtonGithubColor => Some(ButtonGithub)
    case ButtonGoogleColor => Some(ButtonGoogle)
    case ButtonWebColor => Some(ButtonWeb)
    case ButtonTwitterColor => Some(ButtonTwitter)
    case ButtonYoutubeColor => None
  }

  /** The tint that goes with each button icon. */
  function ColorOfIcon(icon: Drawable): ButtonColor {
    match icon
    case IcGithub => ButtonGithubColor
    case IcPlayStore => ButtonGoogleColor
    case IcCategoryWeb => ButtonWebColor
    case IcTwitter => ButtonTwitterColor
    case _ => ButtonYoutubeColor
  }

  /** A listed button tag gets the icon and the tint of one and the same
      service (YOUTUBE by way of the default tint); any other tag gets the pdf
      icon on the youtube tint. */
  lemma ButtonIconMatchesBackground(kind: string)
    ensures kind in ButtonTags ==> ColorOfIcon(ButtonIcon(kind)) == ButtonBackground(kind)
    ensures kind !in ButtonTags ==> ButtonIcon(kind) == IcPdf && ButtonBackground(kind) == ButtonYoutubeColor
  {
  }
}
