/** Translations: an English and a Russian table (written here section by
    section, as the source groups them); `t(key)` reads the current language's
    entry and shows the key itself when the entry is missing or empty. The
    header's globe button flips the language. */
module Language {

  datatype Lang = En | Ru

  /** Some of the keys the pages pass to `t` that neither table defines:
      the desktop navigation's map link and the chat list's two fallbacks.
      The chat, wall and notification pages pass many more undefined keys
      (`messages.newChat`, `wall.noPosts`, `notifications.title`, ...), which
      show the same way. */
  const UndefinedKeys: set<string> := {"nav.map", "messages.unknownUser", "messages.noMessages"}

  const EnNav: map<string, string> := map[
    "nav.dashboard" := "Dashboard",
    "nav.friends" := "Friends",
    "nav.create" := "Create",
    "nav.discover" := "Discover",
    "nav.meetups" := "My Meetups",
    "nav.gallery" := "Gallery",
    "nav.wall" := "Wall",
    "nav.messages" := "Messages",
    "nav.profile" := "Profile"
  ]

  const EnDashboard: map<string, string> := map[
    "dashboard.title" := "Welcome to Meet",
    "dashboard.subtitle" := "Your social meetup companion",
    "dashboard.friends" := "Friends",
    "dashboard.meetups" := "Meetups",
    "dashboard.photos" := "Photos",
    "dashboard.quickActions" := "Quick Actions",
    "dashboard.createMeetup" := "Create Meetup",
    "dashboard.addFriend" := "Add Friend",
    "dashboard.uploadPhoto" := "Upload Photo",
    "dashboard.upcomingMeetups" := "Upcoming Meetups",
    "dashboard.recentActivity" := "Recent Activity"
  ]

  const EnFriends: map<string, string> := map[
    "friends.title" := "Friends",
    "friends.myFriends" := "My Friends",
    "friends.addNew" := "Add New Friend",
    "friends.searchPlaceholder" := "Search friends..."
  ]

  const EnMeetups: map<string, string> := map[
    "meetups.title" := "My Meetups",
    "meetups.upcoming" := "Upcoming",
    "meetups.past" := "Past",
    "meetups.create" := "Create New Meetup",
    "meetups.details" := "Details",
    "meetups.chat" := "Chat",
    "meetups.photos" := "Photos"
  ]

  const EnGallery: map<string, string> := map[
    "gallery.title" := "Gallery",
    "gallery.myPhotos" := "My Photos",
    "gallery.sharedPhotos" := "Shared Photos",
    "gallery.upload" := "Upload Photo"
  ]

  const EnWall: map<string, string> := map[
    "wall.title" := "Community Wall",
    "wall.whatsOnMind" := "What's on your mind?",
    "wall.post" := "Post"
  ]

  const EnMessages: map<string, string> := map[
    "messages.title" := "Messages",
    "messages.direct" := "Direct Messages",
    "messages.groups" := "Group Chats",
    "messages.typing" := "Type a message..."
  ]

  const EnProfile: map<string, string> := map[
    "profile.title" := "Profile",
    "profile.edit" := "Edit Profile",
    "profile.posts" := "Posts",
    "profile.photos" := "Photos",
    "profile.friends" := "Friends"
  ]

  const EnCommon: map<string, string> := map[
    "common.loading" := "Loading...",
    "common.save" := "Save",
    "common.cancel" := "Cancel",
    "common.delete" := "Delete",
    "common.edit" := "Edit",
    "common.share" := "Share",
    "common.like" := "Like",
    "common.comment" := "Comment"
  ]

  const RuNav: map<string, string> := map[
    "nav.dashboard" := "Главная",
    "nav.friends" := "Друзья",
    "nav.create" := "Создать",
    "nav.discover" := "Поиск",
    "nav.meetups" := "Мои встречи",
    "nav.gallery" := "Галерея",
    "nav.wall" := "Стена",
    "nav.messages" := "Сообщения",
    "nav.profile" := "Профиль"
  ]

  const RuDashboard: map<string, string> := map[
    "dashboard.title" := "Добро пожаловать в Meet",
    "dashboard.subtitle" := "Ваш спутник для социальных встреч",
    "dashboard.friends" := "Друзья",
    "dashboard.meetups" := "Встречи",
    "dashboard.photos" := "Фото",
    "dashboard.quickActions" := "Быстрые действия",
    "dashboard.createMeetup" := "Создать встречу",
    "dashboard.addFriend" := "Добавить друга",
    "dashboard.uploadPhoto" := "Загрузить фото",
    "dashboard.upcomingMeetups" := "Предстоящие встречи",
    "dashboard.recentActivity" := "Недавняя активность"
  ]

  const RuFriends: map<string, string> := map[
    "friends.title" := "Друзья",
    "friends.myFriends" := "Мои друзья",
    "friends.addNew" := "Добавить нового друга",
    "friends.searchPlaceholder" := "Поиск друзей..."
  ]

  const RuMeetups: map<string, string> := map[
    "meetups.title" := "Мои встречи",
    "meetups.upcoming" := "Предстоящие",
    "meetups.past" := "Прошедшие",
    "meetups.create" := "Создать новую встречу",
    "meetups.details" := "Детали",
    "meetups.chat" := "Чат",
    "meetups.photos" := "Фото"
  ]

  const RuGallery: map<string, string> := map[
    "gallery.title" := "Галерея",
    "gallery.myPhotos" := "Мои фото",
    "gallery.sharedPhotos" := "Общие фото",
    "gallery.upload" := "Загрузить фото"
  ]

  const RuWall: map<string, string> := map[
    "wall.title" := "Общая стена",
    "wall.whatsOnMind" := "О чем думаете?",
    "wall.post" := "Опубликовать"
  ]

  const RuMessages: map<string, string> := map[
    "messages.title" := "Сообщения",
    "messages.direct" := "Личные сообщения",
    "messages.groups" := "Групповые чаты",
    "messages.typing" := "Введите сообщение..."
  ]

  const RuProfile: map<string, string> := map[
    "profile.title" := "Профиль",
    "profile.edit" := "Редактировать профиль",
    "profile.posts" := "Посты",
    "profile.photos" := "Фото",
    "profile.friends" := "Друзья"
  ]

  const RuCommon: map<string, string> := map[
    "common.loading" := "Загрузка...",
    "common.save" := "Сохранить",
    "common.cancel" := "Отмена",
    "common.delete" := "Удалить",
    "common.edit" := "Редактировать",
    "common.share" := "Поделиться",
    "common.like" := "Нравится",
    "common.comment" := "Комментарий"
  ]

  /** The groups the tables are written in, in source order. */
  datatype Section = NavKeys | DashboardKeys | FriendsKeys | MeetupsKeys | GalleryKeys | WallKeys | MessagesKeys | ProfileKeys | CommonKeys

  const Sections: seq<Section> := [NavKeys, DashboardKeys, FriendsKeys, MeetupsKeys, GalleryKeys, WallKeys, MessagesKeys, ProfileKeys, CommonKeys]

  function SectionTable(lang: Lang, section: Section): map<string, string> {
    match section
    case NavKeys => if lang == En then EnNav else RuNav
    case DashboardKeys => if lang == En then EnDashboard else RuDashboard
    case FriendsKeys => if lang == En then EnFriends else RuFriends
    case MeetupsKeys => if lang == En then EnMeetups else RuMeetups
    case GalleryKeys => if lang == En then EnGallery else RuGallery
    case WallKeys => if lang == En then EnWall else RuWall
    case MessagesKeys => if lang == En then EnMessages else RuMessages
    case ProfileKeys => if lang == En then EnProfile else RuProfile
    case CommonKeys => if lang == En then EnCommon else RuCommon
  }

  /** The object literal: the sections' entries in order, a later entry
      overriding an earlier one with the same key. */
  function Merged(lang: Lang, sections: seq<Section>): map<string, string> {
    if sections == [] then map[]
    else Merged(lang, sections[..|sections| - 1]) + SectionTable(lang, sections[|sections| - 1])
  }

  const EnTable: map<string, string> := Merged(En, Sections)

  const RuTable: map<string, string> := Merged(Ru, Sections)

  function Table(lang: Lang): map<string, string> {
    match lang
    case En => EnTable
    case Ru => RuTable
  }

  /** `t(key)`: the entry when it is there and not empty, else the key. */
  function T(lang: Lang, key: string): (r: string)
    ensures key in Table(lang) && Table(lang)[key] != "" ==> r == Table(lang)[key]
    ensures key !in Table(lang) ==> r == key
  {
    if key in Table(lang) && Table(lang)[key] != "" then Table(lang)[key] else key
  }

  /** `t` shows the key itself for this key. */
  predicate FallsBack(lang: Lang, key: string) {
    key !in Table(lang) || Table(lang)[key] == ""
  }

  /** An English and a Russian table with the same keys, no empty entry,
      and none of the undefined keys. */
  predicate SectionAgreesOn(en: map<string, string>, ru: map<string, string>) {
    && en.Keys == ru.Keys
    && (forall k | k in en :: en[k] != "" && ru[k] != "")
    && (forall k | k in UndefinedKeys :: k !in en && k !in ru)
  }

  lemma NavEntries()
    ensures EnNav.Keys == RuNav.Keys
    ensures forall k | k in EnNav :: EnNav[k] != "" && RuNav[k] != ""
    ensures forall k | k in UndefinedKeys :: k !in EnNav && k !in RuNav
  {
  }

  lemma NavSectionAgrees()
    ensures SectionAgreesOn(SectionTable(En, NavKeys), SectionTable(Ru, NavKeys))
  {
    NavEntries();
  }

  lemma DashboardEntries()
    ensures EnDashboard.Keys == RuDashboard.Keys
    ensures forall k | k in EnDashboard :: EnDashboard[k] != "" && RuDashboard[k] != ""
    ensures forall k | k in UndefinedKeys :: k !in EnDashboard && k !in RuDashboard
  {
  }

  lemma DashboardSectionAgrees()
    ensures SectionAgreesOn(SectionTable(En, DashboardKeys), SectionTable(Ru, DashboardKeys))
  {
    DashboardEntries();
  }

  lemma FriendsEntries()
    ensures EnFriends.Keys == RuFriends.Keys
    ensures forall k | k in EnFriends :: EnFriends[k] != "" && RuFriends[k] != ""
    ensures forall k | k in UndefinedKeys :: k !in EnFriends && k !in RuFriends
  {
  }

  lemma FriendsSectionAgrees()
    ensures SectionAgreesOn(SectionTable(En, FriendsKeys), SectionTable(Ru, FriendsKeys))
  {
    FriendsEntries();
  }

  lemma MeetupsEntries()
    ensures EnMeetups.Keys == RuMeetups.Keys
    ensures forall k | k in EnMeetups :: EnMeetups[k] != "" && RuMeetups[k] != ""
    ensures forall k | k in UndefinedKeys :: k !in EnMeetups && k !in RuMeetups
  {
  }

  lemma MeetupsSectionAgrees()
    ensures SectionAgreesOn(SectionTable(En, MeetupsKeys), SectionTable(Ru, MeetupsKeys))
  {
    MeetupsEntries();
  }

  lemma GalleryEntries()
    ensures EnGallery.Keys == RuGallery.Keys
    ensures forall k | k in EnGallery :: EnGallery[k] != "" && RuGallery[k] != ""
    ensures forall k | k in UndefinedKeys :: k !in EnGallery && k !in RuGallery
  {
  }

  lemma GallerySectionAgrees()
    ensures SectionAgreesOn(SectionTable(En, GalleryKeys), SectionTable(Ru, GalleryKeys))
  {
    GalleryEntries();
  }

  lemma WallEntries()
    ensures EnWall.Keys == RuWall.Keys
    ensures forall k | k in EnWall :: EnWall[k] != "" && RuWall[k] != ""
    ensures forall k | k in UndefinedKeys :: k !in EnWall && k !in RuWall
  {
  }

  lemma WallSectionAgrees()
    ensures SectionAgreesOn(SectionTable(En, WallKeys), SectionTable(Ru, WallKeys))
  {
    WallEntries();
  }

  lemma MessagesEntries()
    ensures EnMessages.Keys == RuMessages.Keys
    ensures forall k | k in EnMessages :: EnMessages[k] != "" && RuMessages[k] != ""
    ensures forall k | k in UndefinedKeys :: k !in EnMessages && k !in RuMessages
  {
  }

  lemma MessagesSectionAgrees()
    ensures SectionAgreesOn(SectionTable(En, MessagesKeys), SectionTable(Ru, MessagesKeys))
  {
    MessagesEntries();
  }

  lemma ProfileEntries()
    ensures EnProfile.Keys == RuProfile.Keys
    ensures forall k | k in EnProfile :: EnProfile[k] != "" && RuProfile[k] != ""
    ensures forall k | k in UndefinedKeys :: k !in EnProfile && k !in RuProfile
  {
  }

  lemma ProfileSectionAgrees()
    ensures SectionAgreesOn(SectionTable(En, ProfileKeys), SectionTable(Ru, ProfileKeys))
  {
    ProfileEntries();
  }

  lemma CommonEntries()
    ensures EnCommon.Keys == RuCommon.Keys
    ensures forall k | k in EnCommon :: EnCommon[k] != "" && RuCommon[k] != ""
    ensures forall k | k in UndefinedKeys :: k !in EnCommon && k !in RuCommon
  {
  }

  lemma CommonSectionAgrees()
    ensures SectionAgreesOn(SectionTable(En, CommonKeys), SectionTable(Ru, CommonKeys))
  {
    CommonEntries();
  }

  /** Two pairs of sections with matching keys and no empty entry merge into
      a pair with the same properties. */
  lemma MergeAgrees(en1: map<string, string>, ru1: map<string, string>, en2: map<string, string>, ru2: map<string, string>)
    requires en1.Keys == ru1.Keys && en2.Keys == ru2.Keys
    requires forall k | k in en1 :: en1[k] != "" && ru1[k] != ""
    requires forall k | k in en2 :: en2[k] != "" && ru2[k] != ""
    requires forall k | k in UndefinedKeys :: k !in en1 && k !in ru1 && k !in en2 && k !in ru2
    ensures (en1 + en2).Keys == (ru1 + ru2).Keys
    ensures forall k | k in en1 + en2 :: (en1 + en2)[k] != "" && (ru1 + ru2)[k] != ""
    ensures forall k | k in UndefinedKeys :: k !in en1 + en2 && k !in ru1 + ru2
  {
  }

  /** The properties below hold section by section. */
  lemma SectionAgrees(section: Section)
    ensures SectionAgreesOn(SectionTable(En, section), SectionTable(Ru, section))
  {
    match section
    case NavKeys => NavSectionAgrees();
    case DashboardKeys => DashboardSectionAgrees();
    case FriendsKeys => FriendsSectionAgrees();
    case MeetupsKeys => MeetupsSectionAgrees();
    case GalleryKeys => GallerySectionAgrees();
    case WallKeys => WallSectionAgrees();
    case MessagesKeys => MessagesSectionAgrees();
    case ProfileKeys => ProfileSectionAgrees();
    case CommonKeys => CommonSectionAgrees();
  }

  /** Merging sections keeps the two languages' keys equal, every entry
      non-empty and the undefined keys out. */
  lemma {:induction false} MergedAgrees(sections: seq<Section>)
    ensures Merged(En, sections).Keys == Merged(Ru, sections).Keys
    ensures forall k | k in Merged(En, sections) :: Merged(En, sections)[k] != "" && Merged(Ru, sections)[k] != ""
    ensures forall k | k in UndefinedKeys :: k !in Merged(En, sections) && k !in Merged(Ru, sections)
  {
    if sections != [] {
      var init := sections[..|sections| - 1];
      var last := sections[|sections| - 1];
      MergedAgrees(init);
      SectionAgrees(last);
      MergeAgrees(Merged(En, init), Merged(Ru, init), SectionTable(En, last), SectionTable(Ru, last));
    }
  }

  /** Both tables define the same keys, no entry is empty, and the keys the
      pages use without defining them are in neither. */
  lemma TablesAgree()
    ensures SectionAgreesOn(EnTable, RuTable)
  {
    MergedAgrees(Sections);
  }

  /** In two tables that agree, a key is missing or empty in one exactly
      when it is in the other, and exactly when it is missing. */
  lemma FallbackAgrees(en: map<string, string>, ru: map<string, string>, key: string)
    requires SectionAgreesOn(en, ru)
    ensures (key !in en || en[key] == "") <==> (key !in ru || ru[key] == "")
    ensures (key !in en || en[key] == "") <==> key !in en
  {
  }

  /** Switching language never changes whether a key falls back. */
  lemma FallbackIndependentOfLanguage(key: string)
    ensures FallsBack(En, key) <==> FallsBack(Ru, key)
  {
    TablesAgree();
    FallbackAgrees(EnTable, RuTable, key);
  }

  /** No entry is empty, so `t` falls back exactly on the keys the tables
      lack. */
  lemma FallbackMeansMissing(lang: Lang, key: string)
    ensures FallsBack(lang, key) <==> key !in Table(lang)
  {
    TablesAgree();
    if lang == En {
      FallbackAgrees(EnTable, RuTable, key);
    } else {
      FallbackAgrees(RuTable, EnTable, key);
    }
  }

  /** The pages' undefined keys show as themselves in either language. */
  lemma UndefinedKeysShowThemselves(lang: Lang)
    ensures T(lang, "nav.map") == "nav.map"
    ensures T(lang, "messages.unknownUser") == "messages.unknownUser"
    ensures T(lang, "messages.noMessages") == "messages.noMessages"
  {
    TablesAgree();
  }

  /** The header toggle: English to Russian, anything else to English. */
  function Toggled(lang: Lang): (r: Lang)
    ensures r != lang
  {
    if lang == En then Ru else En
  }

  /** Two toggles restore the language. */
  lemma ToggleTwice(lang: Lang)
    ensures Toggled(Toggled(lang)) == lang
  {
  }

  /** The provider's state: the current language, English at first. */
  class LanguageProvider {
    var language: Lang

    constructor ()
      ensures language == En
    {
      language := En;
    }

    function Translate(key: string): string
      reads this
    {
      T(language, key)
    }

    method SetLanguage(lang: Lang)
      modifies this
      ensures language == lang
    {
      language := lang;
    }

    /** The header button. */
    method ToggleLanguage()
      modifies this
      ensures language == Toggled(old(language))
    {
      language := Toggled(language);
    }
  }
}
