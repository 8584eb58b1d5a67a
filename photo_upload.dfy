/** The photo upload dialog: where a picked file is stored (bucket and path
    derived from the user, the file's extension and, for gallery photos, the
    time), the record written afterwards, and the form's reset. */
module PhotoUpload {
  import opened Common
  import opened Tables

  /** The position of the last '.' in `s`, if any. */
  function LastDot(s: string): (r: Option<nat>)
    ensures r.Some? ==> r.value < |s| && s[r.value] == '.' && '.' !in s[r.value + 1..]
    ensures r.None? ==> '.' !in s
  {
    if s == [] then None
    else if s[|s| - 1] == '.' then Some(|s| - 1)
    else
      var r := LastDot(s[..|s| - 1]);
      assert s == s[..|s| - 1] + [s[|s| - 1]];
      if r.Some? then
        assert s[r.value + 1..] == s[..|s| - 1][r.value + 1..] + [s[|s| - 1]];
        r
      else r
  }

  /** `name.split('.').pop()`: the text after the last '.', or the whole
      name when it has none. */
  function FileExt(name: string): (ext: string)
    ensures '.' !in ext
    ensures '.' !in name ==> ext == name
    ensures '.' in name ==> exists base :: name == base + "." + ext
  {
    match LastDot(name)
    case None => name
    case Some(i) =>
      assert name == name[..i] + "." + name[i + 1..];
      name[i + 1..]
  }

  /** The extension of `base.ext` is `ext` whenever `ext` has no '.'. */
  lemma FileExtOfJoin(base: string, ext: string)
    requires '.' !in ext
    ensures FileExt(base + "." + ext) == ext
  {
    var name := base + "." + ext;
    var d := LastDot(name);
    assert name[|base|] == '.';
    assert name[|base| + 1..] == ext;
  }

  function Bucket(isProfilePhoto: bool): string {
    if isProfilePhoto then "avatars" else "media"
  }

  /** Only a profile photo may overwrite an existing object. */
  function Upsert(isProfilePhoto: bool): bool {
    isProfilePhoto
  }

  /** `<userId>.<ext>` for a profile photo, `<userId>/<now>.<ext>` for a
      gallery photo, `now` being `Date.now()` in decimal. */
  function PathFor(isProfilePhoto: bool, userId: string, now: nat, ext: string): string {
    if isProfilePhoto then userId + "." + ext else userId + "/" + Decimal(now) + "." + ext
  }

  /** The profile photo's place depends on the user and the extension only,
      which is why it is written with upsert; a gallery photo's place depends
      on the time. */
  lemma ProfilePathFixed(userId: string, now1: nat, now2: nat, ext: string)
    ensures PathFor(true, userId, now1, ext) == PathFor(true, userId, now2, ext)
    ensures Bucket(true) == "avatars" && Upsert(true)
    ensures Bucket(false) == "media" && !Upsert(false)
  {
  }

  /** A gallery path determines the time it was made at. */
  lemma {:induction false} GalleryPathTime(userId: string, now1: nat, now2: nat, ext: string)
    ensures PathFor(false, userId, now1, ext) == PathFor(false, userId, now2, ext) ==> now1 == now2
  {
    var d1 := Decimal(now1);
    var d2 := Decimal(now2);
    var p1 := userId + "/" + d1 + "." + ext;
    var p2 := userId + "/" + d2 + "." + ext;
    if p1 == p2 {
      assert |d1| == |d2|;
      var k := |userId| + 1;
      assert d1 == p1[k..k + |d1|];
      assert d2 == p2[k..k + |d2|];
    }
  }

  /** Two gallery uploads by one user at different times never share a
      path. */
  lemma GalleryPathsDiffer(userId: string, now1: nat, now2: nat, ext: string)
    requires now1 != now2
    ensures PathFor(false, userId, now1, ext) != PathFor(false, userId, now2, ext)
  {
    GalleryPathTime(userId, now1, now2, ext);
  }

  /** The gallery record: the public URL, an image, public, and no caption
      when none was typed. */
  function MediaRow(me: string, url: string, caption: string): (m: UserMedia)
    ensures m.userId == Some(me) && m.url == url && m.mediaType == "image" && m.isPrivate == Some(false)
    ensures m.caption == if caption == "" then None else Some(caption)
  {
    UserMedia(Some(me), url, "image", if caption == "" then None else Some(caption), Some(false))
  }

  /** The profile update: `avatar_url` of the user's row, nothing else. */
  function WithAvatar(profiles: seq<Profile>, me: string, url: string): (r: seq<Profile>)
    ensures |r| == |profiles|
    ensures forall i | 0 <= i < |r| && profiles[i].id == me :: r[i] == profiles[i].(avatarUrl := Some(url))
    ensures forall i | 0 <= i < |r| && profiles[i].id != me :: r[i] == profiles[i]
  {
    seq(|profiles|, i requires 0 <= i < |profiles| =>
      if profiles[i].id == me then profiles[i].(avatarUrl := Some(url)) else profiles[i])
  }

  class PhotoUploadDialog {
    const db: Database
    const user: Option<AuthUser>
    const isProfilePhoto: bool
    var open: bool
    var file: Option<FileInfo>
    var caption: string
    var preview: Option<string>
    var loading: bool

    constructor (db: Database, user: Option<AuthUser>, isProfilePhoto: bool, open: bool)
      ensures this.db == db && this.user == user && this.isProfilePhoto == isProfilePhoto && this.open == open
      ensures file == None && caption == "" && preview == None && !loading
    {
      this.db := db;
      this.user := user;
      this.isProfilePhoto := isProfilePhoto;
      this.open := open;
      file, caption, preview, loading := None, "", None, false;
    }

    /** Picking a file; `dataUrl` is what the file reader produces for the
        preview. Cancelling the picker changes nothing. */
    method SelectFile(picked: Option<FileInfo>, dataUrl: string)
      modifies this`file, this`preview
      ensures picked.Some? ==> file == picked && preview == Some(dataUrl)
      ensures picked.None? ==> file == old(file) && preview == old(preview)
    {
      if picked.Some? {
        file := picked;
        preview := Some(dataUrl);
      }
    }

    method SetCaption(text: string)
      modifies this`caption
      ensures caption == text
    {
      caption := text;
    }

    /** The Remove button keeps the caption. */
    method Remove()
      modifies this`file, this`preview
      ensures file == None && preview == None
    {
      file := None;
      preview := None;
    }

    /** `uploadOk` and `recordOk` are the storage upload's and the table
        write's outcomes, `publicUrl` the URL the storage reports for the new
        object. A failed table write leaves the uploaded object in place. */
    method UploadPhoto(now: nat, uploadOk: bool, publicUrl: string, recordOk: bool) returns (uploaded: bool)
      modifies this`open, this`file, this`caption, this`preview, this`loading, db`objects, db`profiles, db`userMedia
      ensures old(file).None? || user.None? ==>
        !uploaded && db.objects == old(db.objects) && loading == old(loading)
      ensures old(file).Some? && user.Some? ==> !loading
      ensures old(file).Some? && user.Some? && uploadOk ==>
        db.objects == old(db.objects)[StorageKey(Bucket(isProfilePhoto),
          PathFor(isProfilePhoto, user.value.id, now, FileExt(old(file).value.name))) := old(file).value]
      ensures !(old(file).Some? && user.Some? && uploadOk) ==> db.objects == old(db.objects)
      ensures uploaded <==> old(file).Some? && user.Some? && uploadOk && recordOk
      ensures uploaded && isProfilePhoto ==>
        db.profiles == WithAvatar(old(db.profiles), user.value.id, publicUrl) && db.userMedia == old(db.userMedia)
      ensures uploaded && !isProfilePhoto ==>
        db.userMedia == old(db.userMedia) + [MediaRow(user.value.id, publicUrl, old(caption))] && db.profiles == old(db.profiles)
      ensures !uploaded ==> db.profiles == old(db.profiles) && db.userMedia == old(db.userMedia)
      ensures uploaded ==> !open && file == None && caption == "" && preview == None
      ensures !uploaded ==> open == old(open) && file == old(file) && caption == old(caption) && preview == old(preview)
    {
      if file.None? || user.None? {
        return false;
      }
      loading := true;
      var me := user.value.id;
      var key := StorageKey(Bucket(isProfilePhoto), PathFor(isProfilePhoto, me, now, FileExt(file.value.name)));
      if !uploadOk {
        loading := false;
        return false;
      }
      db.objects := db.objects[key := file.value];
      if !recordOk {
        loading := false;
        return false;
      }
      if isProfilePhoto {
        db.profiles := WithAvatar(db.profiles, me, publicUrl);
      } else {
        db.userMedia := db.userMedia + [MediaRow(me, publicUrl, caption)];
      }
      open := false;
      file, caption, preview := None, "", None;
      loading := false;
      uploaded := true;
    }
  }
}
