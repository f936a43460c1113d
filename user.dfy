/** The user document and its schema: a username (required, trimmed, unique), an optional display
    name (trimmed) and email (trimmed, lower-cased), a password that is required unless a social
    account id is set and must then have at least six characters, and a pre-save hook that hashes
    a password that was just set. Hashing is symbolic: `Hashed(p)` stands for a bcrypt hash of the
    plain text `p`, whatever the salt. */
module UserModel {
  import opened Wrappers
  import opened Text

  /** A stored password value: the text as given, or its hash. */
  datatype Secret = Plain(text: string) | Hashed(of: string)

  datatype User = User(
    id: nat,
    username: string,
    displayName: Option<string>,
    email: Option<string>,
    password: Option<Secret>,
    googleId: Option<string>,
    githubId: Option<string>,
    linkedinId: Option<string>,
    createdAt: int)

  const MinPasswordLength := 6

  /** A string field is truthy when it is present and not empty. */
  predicate Truthy(f: Option<string>)
  {
    f.Some? && f.value != []
  }

  /** A stored password is truthy unless it is the empty text; a bcrypt hash never is empty. */
  predicate HasPassword(p: Option<Secret>)
  {
    p.Some? && (p.value.Hashed? || p.value.text != [])
  }

  /** The `required` function of the password path: no social account id is set. */
  predicate PasswordRequired(u: User)
  {
    !Truthy(u.googleId) && !Truthy(u.githubId) && !Truthy(u.linkedinId)
  }

  /** The setter of a trimmed path. */
  function SetTrimmed(f: Option<string>): Option<string>
  {
    if f.Some? then Some(Trim(f.value)) else None
  }

  /** The setters of the email path, in the order the schema lists them: trim, then lower-case. */
  function SetEmail(f: Option<string>): (r: Option<string>)
    ensures r.Some? <==> f.Some?
    ensures r.Some? ==> IsNormal(r.value)
  {
    if f.Some? then
      TrimLowerIsNormal(f.value);
      Some(Lower(Trim(f.value)))
    else None
  }

  /** A new document as the schema's setters leave it. */
  function CastUser(u: User): User
  {
    u.(username := Trim(u.username), displayName := SetTrimmed(u.displayName), email := SetEmail(u.email))
  }

  /** What validation reports about the password path: the first failing validator, if any. The
      `minlength` validator does not look at an absent value. */
  datatype PasswordIssue = PasswordOk | PasswordMissing | PasswordTooShort

  /** The validation errors of a document, one entry per path. */
  datatype UserErrors = UserErrors(usernameMissing: bool, password: PasswordIssue)

  /** The password validators: `required` (when no social id is set) before `minlength`. A
      document passes exactly when a required password is present and not empty and no plain
      password shorter than the minimum is set. */
  function CheckPassword(u: User): (issue: PasswordIssue)
    ensures issue.PasswordOk? <==>
      && (PasswordRequired(u) ==> u.password.Some? && u.password != Some(Plain([])))
      && !(u.password.Some? && u.password.value.Plain? && |u.password.value.text| < MinPasswordLength)
    ensures issue.PasswordTooShort? ==>
      u.password.Some? && u.password.value.Plain? && |u.password.value.text| < MinPasswordLength
  {
    if PasswordRequired(u) && (u.password.None? || u.password == Some(Plain([]))) then PasswordMissing
    else if u.password.Some? && u.password.value.Plain? && |u.password.value.text| < MinPasswordLength then PasswordTooShort
    else PasswordOk
  }

  /** The validators, run on the document as cast, before the pre-save hook. */
  function Validate(u: User): UserErrors
  {
    UserErrors(u.username == [], CheckPassword(u))
  }

  predicate NoErrors(e: UserErrors)
  {
    !e.usernameMissing && e.password.PasswordOk?
  }

  /** The pre-save hook's effect on the password: a password that was modified and is truthy is
      replaced by its hash; otherwise the value is untouched. */
  function SavedPassword(p: Option<Secret>, modified: bool): Option<Secret>
  {
    if modified && p.Some? && p.value.Plain? && p.value.text != [] then Some(Hashed(p.value.text))
    else p
  }

  /** `bcrypt.compare(entered, stored)`: true exactly when `stored` is a hash of `entered`. */
  function Compare(entered: string, stored: Secret): bool
  {
    stored == Hashed(entered)
  }

  /** `user.matchPassword(entered)`: true exactly when the user has a password and it is a hash
      of the text entered. */
  function MatchPassword(u: User, entered: string): (ok: bool)
    ensures ok <==> HasPassword(u.password) && u.password.value == Hashed(entered)
  {
    if !HasPassword(u.password) then false else Compare(entered, u.password.value)
  }

  /** A document in memory, between construction and save: the pre-save hook reassigns its
      password field. */
  class UserDocument {
    var doc: User
    var passwordModified: bool

    constructor (u: User, modified: bool)
      ensures doc == u && passwordModified == modified
    {
      doc := u;
      passwordModified := modified;
    }

    /** `userSchema.pre('save', ...)` */
    method PreSave()
      modifies this
      ensures doc == old(doc).(password := SavedPassword(old(doc.password), old(passwordModified)))
      ensures passwordModified == old(passwordModified)
    {
      if !passwordModified || !HasPassword(doc.password) {
        return;
      }
      if doc.password.value.Plain? {
        doc := doc.(password := Some(Hashed(doc.password.value.text)));
      }
    }
  }

  // ---------------------------------------------------------------------------------------------
  // Lemmas

  lemma TrimLowerIsNormal(e: string)
    ensures IsNormal(Lower(Trim(e)))
  {
    TrimLowerCommute(e);
    NormalizeIdempotent(e);
  }

  /** A cast document has a trimmed username, a trimmed display name and a trimmed, lower-case
      email; casting again changes nothing. */
  lemma CastNormalizes(u: User)
    ensures var c := CastUser(u);
      && IsTrimmed(c.username)
      && (c.displayName.Some? ==> IsTrimmed(c.displayName.value))
      && (c.email.Some? ==> IsNormal(c.email.value))
      && CastUser(c) == c
  {
    var c := CastUser(u);
    TrimIdempotent(u.username);
    if u.displayName.Some? { TrimIdempotent(u.displayName.value); }
    if u.email.Some? {
      var e := Lower(Trim(u.email.value));
      NormalIsTrimmed(e);
      NormalIsLower(e);
    }
  }

  /** The password is reported missing exactly when no social account id is set and the password
      is absent or empty. */
  lemma PasswordMissingIff(u: User)
    ensures CheckPassword(u) == PasswordMissing <==>
      PasswordRequired(u) && (u.password.None? || u.password == Some(Plain([])))
  {
  }

  /** With a social account id, a missing password passes validation. */
  lemma SocialAccountNeedsNoPassword(u: User)
    requires Truthy(u.googleId) || Truthy(u.githubId) || Truthy(u.linkedinId)
    requires u.password.None?
    ensures CheckPassword(u) == PasswordOk
  {
  }

  /** A present plain password passes the length check exactly when it has at least six
      characters (an empty one is reported missing instead when a password is required). */
  lemma PasswordLengthRule(u: User, p: string)
    requires u.password == Some(Plain(p)) && p != []
    ensures CheckPassword(u) == PasswordOk <==> |p| >= 6
    ensures CheckPassword(u) == PasswordTooShort <==> |p| < 6
  {
  }

  /** The hook hashes exactly a modified, truthy plain password, and leaves every other value as
      it is. */
  lemma SavedPasswordHashesIff(p: Option<Secret>, modified: bool)
    ensures SavedPassword(p, modified) != p <==>
      modified && p.Some? && p.value.Plain? && p.value.text != []
    ensures SavedPassword(p, modified) != p ==> SavedPassword(p, modified) == Some(Hashed(p.value.text))
  {
  }

  /** A password set and saved matches exactly the text it was set to. */
  lemma MatchAfterSave(u: User, text: string, entered: string)
    requires text != []
    ensures MatchPassword(u.(password := SavedPassword(Some(Plain(text)), true)), entered) <==> entered == text
  {
  }

  /** A user without a password (absent or empty) matches nothing. */
  lemma NoPasswordMatchesNothing(u: User, entered: string)
    requires !HasPassword(u.password)
    ensures !MatchPassword(u, entered)
  {
  }

  /** A password kept in plain text never matches, not even its own text. */
  lemma PlainPasswordMatchesNothing(u: User, entered: string)
    requires u.password.Some? && u.password.value.Plain?
    ensures !MatchPassword(u, entered)
  {
  }
}
