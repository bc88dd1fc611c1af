/** The records of the data directory (the interfaces at the top of server/db.ts),
    with the defaults that stand in for a file that holds nothing yet. */
module Records {
  import opened Wrappers

  /** A point in time, in milliseconds since the epoch; the ISO-8601 strings the
      source stores are this number rendered as text. */
  type Timestamp = nat

  datatype ContactMessage = ContactMessage(
    id: string, name: string, email: string, phone: string, message: string,
    date: Timestamp, read: bool)

  /** What `addMessage` is given: a message without id, date and read flag. */
  datatype NewMessage = NewMessage(name: string, email: string, phone: string, message: string)

  datatype GalleryImage = GalleryImage(
    id: string, title: string, category: string, imageUrl: string,
    visible: bool, createdAt: Timestamp)

  datatype NewGalleryImage = NewGalleryImage(
    title: string, category: string, imageUrl: string, visible: bool)

  /** The keys a `Partial<GalleryImage>` body carries; an absent key is None. */
  datatype GalleryPatch = GalleryPatch(
    id: Option<string>, title: Option<string>, category: Option<string>,
    imageUrl: Option<string>, visible: Option<bool>, createdAt: Option<Timestamp>)

  datatype Service = Service(
    id: string, name: string, description: string, category: string, imageUrl: string,
    visible: bool, createdAt: Timestamp)

  datatype NewService = NewService(
    name: string, description: string, category: string, imageUrl: string, visible: bool)

  datatype ServicePatch = ServicePatch(
    id: Option<string>, name: Option<string>, description: Option<string>,
    category: Option<string>, imageUrl: Option<string>, visible: Option<bool>,
    createdAt: Option<Timestamp>)

  datatype AdminSettings = AdminSettings(
    phone: string, address: string, email: string, maintenanceMode: bool)

  datatype SettingsPatch = SettingsPatch(
    phone: Option<string>, address: Option<string>, email: Option<string>,
    maintenanceMode: Option<bool>)

  datatype ValueItem = ValueItem(title: string, description: string)

  datatype AboutContent = AboutContent(
    heroTitle: string, heroSubtitle: string, storyTitle: string, storyContent: string,
    mission: string, vision: string, values: seq<ValueItem>)

  datatype AboutPatch = AboutPatch(
    heroTitle: Option<string>, heroSubtitle: Option<string>, storyTitle: Option<string>,
    storyContent: Option<string>, mission: Option<string>, vision: Option<string>,
    values: Option<seq<ValueItem>>)

  datatype PasswordResetToken = PasswordResetToken(
    token: string, createdAt: Timestamp, expiresAt: Timestamp, used: bool)

  datatype PasswordResetOTP = PasswordResetOTP(
    code: string, email: string, createdAt: Timestamp, expiresAt: Timestamp,
    verified: bool, attempts: nat)

  datatype AdminCredentials = AdminCredentials(password: string, email: string)

  /** How long an OTP stays valid: ten minutes. */
  const OtpLifetime: nat := 10 * 60 * 1000
  /** The attempt count at which an OTP is refused. */
  const MaxOtpAttempts: nat := 5
  /** How long a legacy reset token stays valid: one hour. */
  const TokenLifetime: nat := 60 * 60 * 1000

  const DefaultSettings := AdminSettings(
    "0788 470 294", "Chic Building, 2nd Floor, Room F019C", "info@radicaldesign.com", false)

  const DefaultAbout := AboutContent(
    "About RADICAL DESIGN",
    "Your trusted partner in printing and media solutions",
    "Our Story",
    "RADICAL DESIGN Ltd has been serving businesses and organizations with premium printing and media solutions. We combine modern technology with traditional craftsmanship to deliver exceptional results.",
    "To deliver premium printing and media solutions that empower businesses to communicate effectively with their audience.",
    "To be the leading provider of innovative printing and branding solutions in the region.",
    [ ValueItem("Quality Excellence", "Premium materials and professional techniques for every project"),
      ValueItem("Customer Focus", "Your satisfaction is our top priority in every interaction"),
      ValueItem("Fast Service", "Quick turnaround without compromising on quality standards") ])

  const DefaultCredentials := AdminCredentials("admin123", "info@radicaldesign.com")

  function MessageId(m: ContactMessage): string { m.id }
  function ImageId(img: GalleryImage): string { img.id }
  function ServiceId(svc: Service): string { svc.id }

  /** One key of an object spread or `Object.assign`: the supplied value wins. */
  function Override<T>(supplied: Option<T>, current: T): T {
    match supplied
    case Some(v) => v
    case None => current
  }

  /** `Object.assign(image, updates)`. */
  function PatchGalleryImage(img: GalleryImage, p: GalleryPatch): GalleryImage {
    GalleryImage(
      Override(p.id, img.id), Override(p.title, img.title), Override(p.category, img.category),
      Override(p.imageUrl, img.imageUrl), Override(p.visible, img.visible),
      Override(p.createdAt, img.createdAt))
  }

  /** `Object.assign(service, updates)`. */
  function PatchService(svc: Service, p: ServicePatch): Service {
    Service(
      Override(p.id, svc.id), Override(p.name, svc.name), Override(p.description, svc.description),
      Override(p.category, svc.category), Override(p.imageUrl, svc.imageUrl),
      Override(p.visible, svc.visible), Override(p.createdAt, svc.createdAt))
  }

  /** `{ ...settings, ...updates }`. */
  function MergeSettings(cur: AdminSettings, p: SettingsPatch): AdminSettings {
    AdminSettings(
      Override(p.phone, cur.phone), Override(p.address, cur.address),
      Override(p.email, cur.email), Override(p.maintenanceMode, cur.maintenanceMode))
  }

  /** `{ ...content, ...updates }`. */
  function MergeAbout(cur: AboutContent, p: AboutPatch): AboutContent {
    AboutContent(
      Override(p.heroTitle, cur.heroTitle), Override(p.heroSubtitle, cur.heroSubtitle),
      Override(p.storyTitle, cur.storyTitle), Override(p.storyContent, cur.storyContent),
      Override(p.mission, cur.mission), Override(p.vision, cur.vision),
      Override(p.values, cur.values))
  }
}
