/** server/db.ts: the data directory as one object. Each JSON file is a field holding
    the file's list; every mutator reads a list, changes it and writes the whole list back.
    Ids, codes and the clock are parameters (the source draws them from `Date.now()` and
    `Math.random()`). */
module Db {
  import opened Wrappers
  import opened Lists
  import opened Text
  import opened Records
  import opened Collections
  import opened Otps

  class Database {
    var messages: seq<ContactMessage>            // messages.json
    var gallery: seq<GalleryImage>               // gallery.json
    var services: seq<Service>                   // services.json
    var settings: seq<AdminSettings>             // settings.json, at most one record
    var about: seq<AboutContent>                 // about.json, at most one record
    var credentials: seq<AdminCredentials>       // admin-credentials.json, at most one record
    var resetTokens: seq<PasswordResetToken>     // password-reset-tokens.json
    var otps: seq<PasswordResetOTP>              // password-reset-otps.json

    /** A data directory in which no file exists yet. */
    constructor ()
      ensures messages == [] && gallery == [] && services == []
      ensures settings == [] && about == [] && credentials == []
      ensures resetTokens == [] && otps == []
    {
      messages, gallery, services := [], [], [];
      settings, about, credentials := [], [], [];
      resetTokens, otps := [], [];
    }

    // ---- Contact messages ----

    method AddMessage(input: NewMessage, id: string, now: Timestamp) returns (m: ContactMessage)
      modifies this`messages
      ensures m == ContactMessage(id, input.name, input.email, input.phone, input.message, now, false)
      ensures messages == old(messages) + [m]
    {
      m := ContactMessage(id, input.name, input.email, input.phone, input.message, now, false);
      messages := messages + [m];
    }

    method DeleteMessage(id: string)
      modifies this`messages
      ensures messages == RemoveById(old(messages), MessageId, id)
    {
      messages := RemoveById(messages, MessageId, id);
    }

    method MarkMessageAsRead(id: string, read: bool)
      modifies this`messages
      ensures messages == MarkRead(old(messages), id, read)
    {
      messages := MarkRead(messages, id, read);
    }

    function SearchStoredMessages(query: string): (r: seq<ContactMessage>)
      reads this`messages
      ensures IsSubsequence(r, messages)
      ensures forall k :: 0 <= k < |r| ==> MatchesSearch(r[k], query)
      ensures |r| == |set k | 0 <= k < |messages| && MatchesSearch(messages[k], query)|
    {
      SearchMessages(messages, query)
    }

    // ---- Gallery ----

    method AddGalleryImage(input: NewGalleryImage, id: string, now: Timestamp) returns (img: GalleryImage)
      modifies this`gallery
      ensures img == GalleryImage(id, input.title, input.category, input.imageUrl, input.visible, now)
      ensures gallery == old(gallery) + [img]
    {
      img := GalleryImage(id, input.title, input.category, input.imageUrl, input.visible, now);
      gallery := gallery + [img];
    }

    method DeleteGalleryImage(id: string)
      modifies this`gallery
      ensures gallery == RemoveById(old(gallery), ImageId, id)
    {
      gallery := RemoveById(gallery, ImageId, id);
    }

    /** Returns the changed image, or None (the source's `undefined`) when no image has the id. */
    method UpdateGalleryImage(id: string, updates: GalleryPatch) returns (image: Option<GalleryImage>)
      modifies this`gallery
      ensures gallery == PatchImageById(old(gallery), id, updates)
      ensures image == match FindById(old(gallery), ImageId, id)
                       case None => None
                       case Some(found) => Some(PatchGalleryImage(found, updates))
    {
      var found := FindById(gallery, ImageId, id);
      gallery := PatchImageById(gallery, id, updates);
      image := match found
               case None => None
               case Some(f) => Some(PatchGalleryImage(f, updates));
    }

    // ---- Services ----

    method AddService(input: NewService, id: string, now: Timestamp) returns (svc: Service)
      modifies this`services
      ensures svc == Service(id, input.name, input.description, input.category, input.imageUrl, input.visible, now)
      ensures services == old(services) + [svc]
    {
      svc := Service(id, input.name, input.description, input.category, input.imageUrl, input.visible, now);
      services := services + [svc];
    }

    method DeleteService(id: string)
      modifies this`services
      ensures services == RemoveById(old(services), ServiceId, id)
    {
      services := RemoveById(services, ServiceId, id);
    }

    method UpdateService(id: string, updates: ServicePatch) returns (service: Option<Service>)
      modifies this`services
      ensures services == PatchServiceById(old(services), id, updates)
      ensures service == match FindById(old(services), ServiceId, id)
                         case None => None
                         case Some(found) => Some(PatchService(found, updates))
    {
      var found := FindById(services, ServiceId, id);
      services := PatchServiceById(services, id, updates);
      service := match found
                 case None => None
                 case Some(f) => Some(PatchService(f, updates));
    }

    // ---- Singleton records ----

    function GetSettings(): (r: AdminSettings)
      reads this`settings
      ensures settings == [] ==> r == DefaultSettings
      ensures settings != [] ==> r == settings[0]
    {
      Current(settings, DefaultSettings)
    }

    method UpdateSettings(updates: SettingsPatch) returns (updated: AdminSettings)
      modifies this`settings
      ensures updated == MergeSettings(old(GetSettings()), updates)
      ensures settings == [updated] && GetSettings() == updated
    {
      updated := MergeSettings(GetSettings(), updates);
      settings := [updated];
    }

    function GetAboutContent(): (r: AboutContent)
      reads this`about
      ensures about == [] ==> r == DefaultAbout
      ensures about != [] ==> r == about[0]
    {
      Current(about, DefaultAbout)
    }

    method UpdateAboutContent(updates: AboutPatch) returns (updated: AboutContent)
      modifies this`about
      ensures updated == MergeAbout(old(GetAboutContent()), updates)
      ensures about == [updated] && GetAboutContent() == updated
    {
      updated := MergeAbout(GetAboutContent(), updates);
      about := [updated];
    }

    function GetAdminCredentials(): (r: AdminCredentials)
      reads this`credentials
      ensures credentials == [] ==> r == DefaultCredentials
      ensures credentials != [] ==> r == credentials[0]
    {
      Current(credentials, DefaultCredentials)
    }

    method UpdateAdminPassword(newPassword: string) returns (updated: AdminCredentials)
      modifies this`credentials
      ensures updated == AdminCredentials(newPassword, old(GetAdminCredentials()).email)
      ensures credentials == [updated] && GetAdminCredentials() == updated
    {
      updated := GetAdminCredentials().(password := newPassword);
      credentials := [updated];
    }

    method UpdateAdminEmail(newEmail: string) returns (updated: AdminCredentials)
      modifies this`credentials
      ensures updated == AdminCredentials(old(GetAdminCredentials()).password, newEmail)
      ensures credentials == [updated] && GetAdminCredentials() == updated
    {
      updated := GetAdminCredentials().(email := newEmail);
      credentials := [updated];
    }

    // ---- Legacy reset tokens ----

    method CreatePasswordResetToken(token: string, now: Timestamp) returns (t: string)
      modifies this`resetTokens
      ensures t == token
      ensures resetTokens == IssueToken(old(resetTokens), token, now)
    {
      resetTokens := IssueToken(resetTokens, token, now);
      t := token;
    }

    function VerifyPasswordResetToken(token: string, now: Timestamp): (ok: bool)
      reads this`resetTokens
      ensures ok <==> exists i: nat :: FirstToken(resetTokens, token, i) &&
                        !resetTokens[i].used && !(resetTokens[i].expiresAt < now)
    {
      VerifyToken(resetTokens, token, now)
    }

    method UsePasswordResetToken(token: string) returns (used: Option<PasswordResetToken>)
      modifies this`resetTokens
      ensures resetTokens == UseToken(old(resetTokens), token)
      ensures used.None? <==> forall j :: 0 <= j < |old(resetTokens)| ==> old(resetTokens)[j].token != token
      ensures used.Some? ==> used.value.used && used.value in resetTokens
      ensures used.Some? ==> exists i: nat :: FirstToken(old(resetTokens), token, i) &&
                               used.value == old(resetTokens)[i].(used := true)
    {
      var i := FirstIndex(resetTokens, (t: PasswordResetToken) => t.token == token);
      resetTokens := UseToken(resetTokens, token);
      used := match i
              case None => None
              case Some(k) => Some(resetTokens[k]);
    }

    method DeleteExpired(now: Timestamp)
      modifies this`resetTokens
      ensures resetTokens == DeleteExpiredTokens(old(resetTokens), now)
    {
      resetTokens := DeleteExpiredTokens(resetTokens, now);
    }

    // ---- One-time codes ----

    /** `code` is the number `generateOTPCode` draws; the stored code is its decimal text. */
    method CreatePasswordResetOTP(email: string, code: nat, now: Timestamp) returns (c: string)
      requires 100000 <= code <= 999999
      modifies this`otps
      ensures c == Decimal(code) && |c| == 6 && AllDigits(c)
      ensures otps == IssueOtp(old(otps), email, c, now)
    {
      SixDigitDecimal(code);
      c := Decimal(code);
      otps := IssueOtp(otps, email, c, now);
    }

    function VerifyPasswordResetOTP(email: string, code: string, now: Timestamp): (ok: bool)
      reads this`otps
      ensures ok <==> exists i: nat :: FirstFor(otps, email, code, i) && Usable(otps[i], now)
    {
      VerifyOtp(otps, email, code, now)
    }

    method MarkOTPAsVerified(email: string, code: string)
      modifies this`otps
      ensures otps == MarkVerified(old(otps), email, code)
    {
      otps := MarkVerified(otps, email, code);
    }

    method IncrementOTPAttempts(email: string, code: string)
      modifies this`otps
      ensures otps == IncrementAttempts(old(otps), email, code)
    {
      otps := IncrementAttempts(otps, email, code);
    }

    function GetVerifiedOTP(email: string, now: Timestamp): (r: Option<PasswordResetOTP>)
      reads this`otps
      ensures (forall j :: 0 <= j < |otps| ==> !(otps[j].email == email && otps[j].verified)) ==> r.None?
      ensures forall i: nat :: FirstVerified(otps, email, i) ==>
                r == if otps[i].expiresAt < now then None else Some(otps[i])
    {
      VerifiedOtp(otps, email, now)
    }

    method ClearVerifiedOTP(email: string)
      modifies this`otps
      ensures otps == ClearVerified(old(otps), email)
    {
      otps := ClearVerified(otps, email);
    }
  }
}
