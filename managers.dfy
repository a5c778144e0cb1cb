/** `TalentOauth2Manager.create_talent`: a new Talent row from a Discord
    user record. */
module Managers {
  import opened Common
  import opened Strings
  import opened TalentModels
  import opened OAuthUtils
  import opened Store

  /** Why `create_talent` raises: a helper's exception (unknown locale,
      missing avatar), or a primary key that is already taken. */
  datatype CreateError = HelperError(error: UtilError) | IntegrityError

  /** The Discord tag `username#discriminator`, absent parts rendered
      "None". */
  function DiscordTag(user: ProviderUser): (tag: string)
    ensures Show(user.username) + "#" <= tag
  {
    Show(user.username) + "#" + Show(user.discriminator)
  }

  /** Reading a tag back: the username is the text before the first `#`,
      the discriminator the rest. */
  lemma DiscordTagRoundTrip(user: ProviderUser)
    requires '#' !in Show(user.username)
    ensures SplitOnce(DiscordTag(user), '#') == Some((Show(user.username), Show(user.discriminator)))
  {
    assert DiscordTag(user) == Show(user.username) + ['#'] + Show(user.discriminator);
    SplitOnceConcat(Show(user.username), '#', Show(user.discriminator));
  }

  /** The row `create_talent` builds, before it is saved: the language
      from the locale (its error first), then the avatar URL (its error
      second); id and global name copied from the user record, the Discord
      tag as profile, no visits and no skills. The username is not set and
      keeps its empty default. */
  function TalentFromUser(user: ProviderUser, localeData: map<string, string>): (r: Result<Talent, UtilError>)
    ensures LanguageFromLocale(localeData, user.locale).Err? ==> r == Err(LanguageFromLocale(localeData, user.locale).error)
    ensures LanguageFromLocale(localeData, user.locale).Ok? && AvatarUrl(user).Err? ==> r == Err(AvatarUrl(user).error)
    ensures r.Ok? <==> LanguageFromLocale(localeData, user.locale).Ok? && AvatarUrl(user).Ok?
    ensures r.Ok? ==>
              && r.value.id == user.id
              && r.value.globalName == user.globalName
              && r.value.avatar == AvatarUrl(user).value
              && r.value.language == LanguageFromLocale(localeData, user.locale).value
              && r.value.discordProfile == Some(DiscordTag(user))
              && r.value.username == ""
              && r.value.profileVisits == 0 && r.value.skills == {}
  {
    match LanguageFromLocale(localeData, user.locale)
    case Err(e) => Err(e)
    case Ok(language) =>
      var tag := DiscordTag(user);
      match AvatarUrl(user)
      case Err(e) => Err(e)
      case Ok(avatar) => Ok(Talent(user.id, avatar, "", user.globalName, language, 0, Some(tag), {}))
  }

  /** The created row identifies the user record it came from: its avatar
      URL names the user's id and avatar hash, and its Discord profile
      splits back into username and discriminator. */
  lemma TalentFromUserRecoversUser(user: ProviderUser, localeData: map<string, string>)
    requires TalentFromUser(user, localeData).Ok?
    requires '/' !in user.avatar.value && '#' !in Show(user.username)
    ensures var t := TalentFromUser(user, localeData).value;
            && ParseAvatarUrl(t.avatar) == Some((t.id, user.avatar.value))
            && SplitOnce(t.discordProfile.value, '#') == Some((Show(user.username), Show(user.discriminator)))
  {
    AvatarUrlRoundTrip(user);
    DiscordTagRoundTrip(user);
  }

  /** `create_talent(user)`: when the row can be built and its id is free,
      exactly that row is inserted; otherwise the exception is raised and
      nothing changes. */
  method CreateTalent(db: Db, user: ProviderUser, localeData: map<string, string>) returns (r: Result<Talent, CreateError>)
    requires db.Valid()
    modifies db
    ensures db.Valid()
    ensures TalentFromUser(user, localeData).Err? ==>
              r == Err(HelperError(TalentFromUser(user, localeData).error)) && unchanged(db)
    ensures TalentFromUser(user, localeData).Ok? && user.id in old(db.talents) ==>
              r == Err(IntegrityError) && unchanged(db)
    ensures TalentFromUser(user, localeData).Ok? && user.id !in old(db.talents) ==>
              && r == Ok(TalentFromUser(user, localeData).value)
              && db.talents == old(db.talents)[user.id := r.value]
              && db.visits == old(db.visits) && db.skillRows == old(db.skillRows)
              && db.jobs == old(db.jobs) && db.nextJobId == old(db.nextJobId) && db.jobTypeRows == old(db.jobTypeRows)
              && db.experiences == old(db.experiences) && db.reviews == old(db.reviews)
  {
    match TalentFromUser(user, localeData)
    case Err(e) =>
      return Err(HelperError(e));
    case Ok(t) =>
      if t.id in db.talents {
        return Err(IntegrityError);
      }
      db.InsertTalent(t);
      r := Ok(t);
  }
}
