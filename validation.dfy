/** The input schemas of the sign-up, log-in, post, comment, profile, caption
    and location forms. Each string field is a chain of zod checks, run in
    order on the raw input; every check that fails contributes its message.
    The e-mail and URL formats are zod's own and come in as predicates. */
module Validation {
  import opened Common

  /** zod's built-in formats, taken as given. */
  datatype Formats = Formats(isEmail: string -> bool, isUrl: string -> bool)

  /** The regular expressions the schemas use. */
  datatype Pattern =
    | SomeUpper  // /[A-Z]/
    | SomeLower  // /[a-z]/
    | SomeDigit  // /[0-9]/
    | WordOnly   // /^[a-zA-Z0-9_]+$/

  predicate IsUpperAscii(c: char) { 'A' <= c <= 'Z' }
  predicate IsLowerAscii(c: char) { 'a' <= c <= 'z' }
  predicate IsWordChar(c: char) { IsUpperAscii(c) || IsLowerAscii(c) || IsDigit(c) || c == '_' }

  predicate HasUpper(s: string) { exists i | 0 <= i < |s| :: IsUpperAscii(s[i]) }
  predicate HasLower(s: string) { exists i | 0 <= i < |s| :: IsLowerAscii(s[i]) }
  predicate HasDigit(s: string) { exists i | 0 <= i < |s| :: IsDigit(s[i]) }
  predicate AllWordChars(s: string) { forall i | 0 <= i < |s| :: IsWordChar(s[i]) }

  /** `regex.test(s)`: an unanchored pattern matches anywhere, the anchored
      one needs the whole (non-empty) string. */
  predicate Matches(p: Pattern, s: string) {
    match p
    case SomeUpper => HasUpper(s)
    case SomeLower => HasLower(s)
    case SomeDigit => HasDigit(s)
    case WordOnly => |s| > 0 && AllWordChars(s)
  }

  /** One link of a `z.string()` chain. `Trim` rewrites the output and never
      fails. Lengths are JavaScript's, in UTF-16 code units. */
  datatype Check =
    | MinLength(n: nat, message: string)
    | MaxLength(n: nat, message: string)
    | Regex(pattern: Pattern, message: string)
    | Email(message: string)
    | Url(message: string)
    | Trim

  predicate Passes(c: Check, s: string, f: Formats) {
    match c
    case MinLength(n, _) => Utf16Length(s) >= n
    case MaxLength(n, _) => Utf16Length(s) <= n
    case Regex(p, _) => Matches(p, s)
    case Email(_) => f.isEmail(s)
    case Url(_) => f.isUrl(s)
    case Trim => true
  }

  function MessageOf(c: Check): string {
    match c
    case Trim => ""
    case _ => c.message
  }

  /** A reported problem with one field. */
  datatype Issue =
    | Failed(message: string)  // a check of the chain failed
    | Required                 // a required field is missing
    | InvalidType              // null where the field is not nullable
    | TooSmall                 // a number below `.min`
    | TooBig                   // a number above `.max`

  /** The issues of running `chain` on `s`: one per failing check, in order. */
  function ChainIssues(chain: seq<Check>, s: string, f: Formats): (r: seq<Issue>)
    ensures |r| <= |chain|
    ensures r == [] <==> forall k | 0 <= k < |chain| :: Passes(chain[k], s, f)
  {
    if chain == [] then []
    else
      var rest := ChainIssues(chain[1..], s, f);
      assert forall k | 1 <= k < |chain| :: chain[k] == chain[1..][k - 1];
      if Passes(chain[0], s, f) then rest else [Failed(MessageOf(chain[0]))] + rest
  }

  /** A field of an object as it arrives: missing, null or a string. */
  datatype Input = Absent | Null | Text(s: string)

  /** A string field: its chain and whether `.optional()` / `.nullable()` follow. */
  datatype Field = Field(chain: seq<Check>, optional: bool, nullable: bool)

  function FieldIssues(field: Field, v: Input, f: Formats): seq<Issue> {
    match v
    case Absent => if field.optional then [] else [Required]
    case Null => if field.nullable then [] else [InvalidType]
    case Text(s) => ChainIssues(field.chain, s, f)
  }

  // The chains of src/lib/validationSchemas.ts.

  const EmailChain: seq<Check> := [Email("Invalid email format"), MaxLength(255, "Email too long")]

  const PasswordChain: seq<Check> := [
    MinLength(8, "Password must be at least 8 characters"),
    MaxLength(72, "Password too long"),
    Regex(SomeUpper, "Must contain at least one uppercase letter"),
    Regex(SomeLower, "Must contain at least one lowercase letter"),
    Regex(SomeDigit, "Must contain at least one number")]

  const UsernameChain: seq<Check> := [
    MinLength(3, "Username must be at least 3 characters"),
    MaxLength(20, "Username must be at most 20 characters"),
    Regex(WordOnly, "Username can only contain letters, numbers, and underscores"),
    Trim]

  const DisplayNameChain: seq<Check> := [
    MinLength(1, "Display name is required"),
    MaxLength(50, "Display name must be at most 50 characters"),
    Trim]

  const LoginPasswordChain: seq<Check> := [MinLength(1, "Password is required")]

  const PostContentChain: seq<Check> := [
    MinLength(1, "Post cannot be empty"),
    MaxLength(5000, "Post must be at most 5000 characters"),
    Trim]

  const MediaUrlChain: seq<Check> := [Url("Invalid URL")]

  const CommentContentChain: seq<Check> := [
    MinLength(1, "Comment cannot be empty"),
    MaxLength(1000, "Comment must be at most 1000 characters"),
    Trim]

  const BioChain: seq<Check> := [MaxLength(500, "Bio must be at most 500 characters"), Trim]

  const CaptionChain: seq<Check> := [MaxLength(200, "Caption must be at most 200 characters"), Trim]

  function RequiredField(chain: seq<Check>): Field { Field(chain, false, false) }

  // The object schemas.

  datatype SignupForm = SignupForm(email: Input, password: Input, username: Input, displayName: Input)

  function SignupIssues(x: SignupForm, f: Formats): seq<Issue> {
    FieldIssues(RequiredField(EmailChain), x.email, f)
    + FieldIssues(RequiredField(PasswordChain), x.password, f)
    + FieldIssues(RequiredField(UsernameChain), x.username, f)
    + FieldIssues(RequiredField(DisplayNameChain), x.displayName, f)
  }

  datatype LoginForm = LoginForm(email: Input, password: Input)

  function LoginIssues(x: LoginForm, f: Formats): seq<Issue> {
    FieldIssues(RequiredField(EmailChain), x.email, f) + FieldIssues(RequiredField(LoginPasswordChain), x.password, f)
  }

  datatype PostForm = PostForm(content: Input, mediaUrl: Input)

  function PostIssues(x: PostForm, f: Formats): seq<Issue> {
    FieldIssues(RequiredField(PostContentChain), x.content, f) + FieldIssues(Field(MediaUrlChain, true, true), x.mediaUrl, f)
  }

  function CommentIssues(content: Input, f: Formats): seq<Issue> {
    FieldIssues(RequiredField(CommentContentChain), content, f)
  }

  datatype ProfileUpdate = ProfileUpdate(username: Input, displayName: Input, bio: Input)

  function ProfileUpdateIssues(x: ProfileUpdate, f: Formats): seq<Issue> {
    FieldIssues(Field(UsernameChain, true, false), x.username, f)
    + FieldIssues(Field(DisplayNameChain, true, false), x.displayName, f)
    + FieldIssues(Field(BioChain, true, true), x.bio, f)
  }

  function CaptionIssues(caption: Input, f: Formats): seq<Issue> {
    FieldIssues(Field(CaptionChain, true, true), caption, f)
  }

  /** `z.number().min(lo).max(hi)`: both bounds inclusive. */
  function RangeIssues(x: real, lo: real, hi: real): seq<Issue> {
    (if x >= lo then [] else [TooSmall]) + (if x <= hi then [] else [TooBig])
  }

  function LocationIssues(latitude: real, longitude: real): seq<Issue> {
    RangeIssues(latitude, -90.0, 90.0) + RangeIssues(longitude, -180.0, 180.0)
  }

  // What each schema accepts, in plain terms.

  /** A username is ASCII, so its code units are its characters. */
  predicate ValidUsername(s: string) { 3 <= |s| <= 20 && AllWordChars(s) }
  predicate ValidPassword(s: string) { 8 <= Utf16Length(s) <= 72 && HasUpper(s) && HasLower(s) && HasDigit(s) }
  predicate ValidDisplayName(s: string) { 1 <= Utf16Length(s) <= 50 }
  predicate ValidEmail(s: string, f: Formats) { f.isEmail(s) && Utf16Length(s) <= 255 }

  lemma UsernameAccepted(s: string, f: Formats)
    ensures ChainIssues(UsernameChain, s, f) == [] <==> ValidUsername(s)
  {
    if AllWordChars(s) {
      assert forall i | 0 <= i < |s| :: !IsAstral(s[i]);
    }
    assert ChainIssues(UsernameChain, s, f) == [] <==>
      Passes(UsernameChain[0], s, f) && Passes(UsernameChain[1], s, f) &&
      Passes(UsernameChain[2], s, f) && Passes(UsernameChain[3], s, f);
  }

  lemma PasswordAccepted(s: string, f: Formats)
    ensures ChainIssues(PasswordChain, s, f) == [] <==> ValidPassword(s)
  {
    assert ChainIssues(PasswordChain, s, f) == [] <==>
      Passes(PasswordChain[0], s, f) && Passes(PasswordChain[1], s, f) && Passes(PasswordChain[2], s, f) &&
      Passes(PasswordChain[3], s, f) && Passes(PasswordChain[4], s, f);
  }

  lemma DisplayNameAccepted(s: string, f: Formats)
    ensures ChainIssues(DisplayNameChain, s, f) == [] <==> ValidDisplayName(s)
  {
    assert ChainIssues(DisplayNameChain, s, f) == [] <==>
      Passes(DisplayNameChain[0], s, f) && Passes(DisplayNameChain[1], s, f) && Passes(DisplayNameChain[2], s, f);
  }

  lemma EmailAccepted(s: string, f: Formats)
    ensures ChainIssues(EmailChain, s, f) == [] <==> ValidEmail(s, f)
  {
    assert ChainIssues(EmailChain, s, f) == [] <==> Passes(EmailChain[0], s, f) && Passes(EmailChain[1], s, f);
  }

  /** A sign-up is accepted exactly when all four fields are present strings
      meeting their rules. */
  lemma SignupAccepted(x: SignupForm, f: Formats)
    ensures SignupIssues(x, f) == [] <==>
      && x.email.Text? && ValidEmail(x.email.s, f)
      && x.password.Text? && ValidPassword(x.password.s)
      && x.username.Text? && ValidUsername(x.username.s)
      && x.displayName.Text? && ValidDisplayName(x.displayName.s)
  {
    if x.email.Text? { EmailAccepted(x.email.s, f); }
    if x.password.Text? { PasswordAccepted(x.password.s, f); }
    if x.username.Text? { UsernameAccepted(x.username.s, f); }
    if x.displayName.Text? { DisplayNameAccepted(x.displayName.s, f); }
  }

  /** A log-in only needs a valid e-mail and a non-empty password. */
  lemma LoginAccepted(x: LoginForm, f: Formats)
    ensures LoginIssues(x, f) == [] <==>
      x.email.Text? && ValidEmail(x.email.s, f) && x.password.Text? && x.password.s != ""
  {
    if x.email.Text? { EmailAccepted(x.email.s, f); }
    if x.password.Text? {
      assert ChainIssues(LoginPasswordChain, x.password.s, f) == [] <==> Passes(LoginPasswordChain[0], x.password.s, f);
    }
  }

  /** Every sign-up password is a log-in password, but not conversely: the
      strength rules apply to sign-up only. */
  lemma LoginWeakerThanSignup(email: string, f: Formats)
    ensures ValidEmail(email, f) ==> forall p :: ValidPassword(p) ==> LoginIssues(LoginForm(Text(email), Text(p)), f) == []
    ensures ValidEmail(email, f) ==> LoginIssues(LoginForm(Text(email), Text("a")), f) == []
    ensures !ValidPassword("a")
  {
    forall p | ValidPassword(p) ensures ValidEmail(email, f) ==> LoginIssues(LoginForm(Text(email), Text(p)), f) == [] {
      LoginAccepted(LoginForm(Text(email), Text(p)), f);
    }
    LoginAccepted(LoginForm(Text(email), Text("a")), f);
  }

  /** A string of astral characters only is twice as long as it looks. */
  lemma {:induction false} AstralLength(s: string)
    ensures (forall i | 0 <= i < |s| :: IsAstral(s[i])) ==> Utf16Length(s) == 2 * |s|
  {
    if s != [] {
      AstralLength(s[..|s| - 1]);
    }
  }

  /** The bounds count code units, not characters: 26 emoji are too long
      for a display name, and three letters and digits with three emoji
      make a long enough password. */
  lemma LengthsCountCodeUnits(name: string)
    ensures |name| == 26 && (forall i | 0 <= i < |name| :: IsAstral(name[i])) ==> !ValidDisplayName(name)
    ensures ValidPassword("Aa1\U{1F600}\U{1F600}\U{1F600}")
  {
    AstralLength(name);
    var p := "Aa1\U{1F600}\U{1F600}\U{1F600}";
    assert IsUpperAscii(p[0]) && IsLowerAscii(p[1]) && IsDigit(p[2]);
  }

  lemma PostAccepted(x: PostForm, f: Formats)
    ensures PostIssues(x, f) == [] <==>
      && x.content.Text? && 1 <= Utf16Length(x.content.s) <= 5000
      && (x.mediaUrl.Text? ==> f.isUrl(x.mediaUrl.s))
  {
    if x.content.Text? {
      var s := x.content.s;
      assert ChainIssues(PostContentChain, s, f) == [] <==>
        Passes(PostContentChain[0], s, f) && Passes(PostContentChain[1], s, f) && Passes(PostContentChain[2], s, f);
    }
    if x.mediaUrl.Text? {
      assert ChainIssues(MediaUrlChain, x.mediaUrl.s, f) == [] <==> Passes(MediaUrlChain[0], x.mediaUrl.s, f);
    }
  }

  lemma CommentAccepted(content: Input, f: Formats)
    ensures CommentIssues(content, f) == [] <==> content.Text? && 1 <= Utf16Length(content.s) <= 1000
  {
    if content.Text? {
      var s := content.s;
      assert ChainIssues(CommentContentChain, s, f) == [] <==>
        Passes(CommentContentChain[0], s, f) && Passes(CommentContentChain[1], s, f) && Passes(CommentContentChain[2], s, f);
    }
  }

  /** Every field of a profile update may be missing; a present username or
      display name follows the sign-up rules (null is refused), and a bio is
      null or at most 500 characters. */
  lemma ProfileUpdateAccepted(x: ProfileUpdate, f: Formats)
    ensures ProfileUpdateIssues(x, f) == [] <==>
      && (x.username.Absent? || (x.username.Text? && ValidUsername(x.username.s)))
      && (x.displayName.Absent? || (x.displayName.Text? && ValidDisplayName(x.displayName.s)))
      && (x.bio.Text? ==> Utf16Length(x.bio.s) <= 500)
  {
    if x.username.Text? { UsernameAccepted(x.username.s, f); }
    if x.displayName.Text? { DisplayNameAccepted(x.displayName.s, f); }
    if x.bio.Text? {
      assert ChainIssues(BioChain, x.bio.s, f) == [] <==> Passes(BioChain[0], x.bio.s, f) && Passes(BioChain[1], x.bio.s, f);
    }
  }

  lemma CaptionAccepted(caption: Input, f: Formats)
    ensures CaptionIssues(caption, f) == [] <==> (caption.Text? ==> Utf16Length(caption.s) <= 200)
  {
    if caption.Text? {
      assert ChainIssues(CaptionChain, caption.s, f) == [] <==>
        Passes(CaptionChain[0], caption.s, f) && Passes(CaptionChain[1], caption.s, f);
    }
  }

  lemma LocationAccepted(latitude: real, longitude: real)
    ensures LocationIssues(latitude, longitude) == [] <==>
      -90.0 <= latitude <= 90.0 && -180.0 <= longitude <= 180.0
  {
  }
}
