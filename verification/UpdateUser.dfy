/**
 * The account-settings update (`updateUserById`). A request passes an
 * ordered cascade of checks, each of which may end it with a 400 answer:
 * schema validation, a username/email conflict with another user, the
 * avatar size, the current password for an email change, the password
 * change fields, and the password of an invited user. Side effects that
 * happen before a later check fails stay done (the avatar file, the
 * email-change verification request). A request that passes every check
 * writes the derived user fields and synchronises the whitelist.
 *
 * The database lookups and the password hashing are inputs: `taken` is the
 * other user the conflict lookup found, `compare` is bcrypt's comparison
 * and `hash` its hashing, `locales` the supported locales.
 */
module UpdateUser {
  import opened Js

  datatype Issue = Issue(message: string, path: seq<string>)

  /** The archive preferences of a request, each possibly absent. */
  datatype ArchivePrefs = ArchivePrefs(
    screenshot: Option<bool>, monolith: Option<bool>, pdf: Option<bool>,
    readable: Option<bool>, wayback: Option<bool>)

  /** The request body after schema validation. */
  datatype AccountSettings = AccountSettings(
    name: Option<string>,
    username: string,
    email: Option<string>,
    image: Option<string>,
    password: Option<string>,
    newPassword: Option<string>,
    oldPassword: Option<string>,
    isPrivate: Option<bool>,
    locale: Option<string>,
    referredBy: Option<string>,
    collectionOrder: Option<seq<int>>,
    whitelistedUsers: Option<seq<string>>,
    archive: ArchivePrefs)

  /** The outcome of schema validation. */
  datatype Parsed = Parsed(data: AccountSettings) | ParseError(issue: Issue)

  datatype StoredPrefs = StoredPrefs(screenshot: bool, monolith: bool, pdf: bool, readable: bool, wayback: bool)

  /** The stored user columns the update reads or writes. */
  datatype UserRow = UserRow(
    id: int,
    name: Option<string>,
    username: string,
    email: Option<string>,
    password: Option<string>,
    image: string,
    locale: string,
    referredBy: Option<string>,
    parentSubscriptionId: Option<int>,
    isPrivate: bool,
    collectionOrder: seq<int>,
    archive: StoredPrefs)

  // ---- The conflict lookup and its message ----

  datatype UserCriterion = UsernameIs(username: string) | EmailIs(email: Option<string>)

  /** The `findFirst` arguments: another user with the same username, or,
      when email is configured, the same email. */
  datatype UserLookup = UserLookup(excludedId: int, anyOf: seq<UserCriterion>)

  function ConflictLookup(userId: int, data: AccountSettings, emailEnabled: bool): (q: UserLookup)
    ensures q.excludedId == userId
    ensures |q.anyOf| == (if emailEnabled then 2 else 1)
    ensures q.anyOf[0] == UsernameIs(Lower(data.username))
    ensures emailEnabled ==> q.anyOf[1] == EmailIs(if data.email.Some? then Some(Lower(data.email.value)) else None)
  {
    var byName := UsernameIs(Lower(data.username));
    UserLookup(userId,
      if emailEnabled then [byName, EmailIs(if data.email.Some? then Some(Lower(data.email.value)) else None)]
      else [byName])
  }

  /** A stored user meets a criterion; an absent email is no condition at
      all, as the ORM drops undefined filter values. */
  predicate MeetsCriterion(row: UserRow, c: UserCriterion) {
    match c
    case UsernameIs(u) => row.username == u
    case EmailIs(e) => e.None? || row.email == e
  }

  /** The rows the conflict lookup can answer with. */
  predicate MatchesLookup(row: UserRow, q: UserLookup) {
    row.id != q.excludedId && exists i :: 0 <= i < |q.anyOf| && MeetsCriterion(row, q.anyOf[i])
  }

  /** The requesting user never conflicts with itself. */
  lemma LookupExcludesRequester(row: UserRow, data: AccountSettings, emailEnabled: bool)
    ensures !MatchesLookup(row, ConflictLookup(row.id, data, emailEnabled))
  {
  }

  /** Without email configured, a conflict is exactly another user holding
      the lower-cased username. */
  lemma {:induction false} LookupByUsernameOnly(userId: int, row: UserRow, data: AccountSettings)
    ensures MatchesLookup(row, ConflictLookup(userId, data, false)) <==>
              row.id != userId && row.username == Lower(data.username)
  {
    var q := ConflictLookup(userId, data, false);
    if row.id != userId && row.username == Lower(data.username) {
      assert MeetsCriterion(row, q.anyOf[0]);
    }
  }

  /** With email configured, another user holding the lower-cased email conflicts. */
  lemma LookupFindsEmail(userId: int, row: UserRow, data: AccountSettings)
    requires row.id != userId && data.email.Some? && row.email == Some(Lower(data.email.value))
    ensures MatchesLookup(row, ConflictLookup(userId, data, true))
  {
    assert MeetsCriterion(row, ConflictLookup(userId, data, true).anyOf[1]);
  }

  /** `value?.toLowerCase().trim()` and `value?.trim()`. */
  function LowerTrimmed(s: Option<string>): Option<string> {
    if s.Some? then Some(Trim(Lower(s.value))) else None
  }

  function Trimmed(s: Option<string>): Option<string> {
    if s.Some? then Some(Trim(s.value)) else None
  }

  const EmailTaken := "Email is taken."
  const UsernameTaken := "Username is taken."
  const UsernameOrEmailTaken := "Username/Email is taken."

  /** The message for a conflict: the email comparison first, then the username. */
  function ConflictMessage(data: AccountSettings, taken: UserRow): (m: string)
    ensures m == EmailTaken <==> LowerTrimmed(data.email) == Trimmed(taken.email)
    ensures m == UsernameTaken <==>
              LowerTrimmed(data.email) != Trimmed(taken.email)
              && Trim(Lower(data.username)) == Trim(taken.username)
    ensures m == UsernameOrEmailTaken <==>
              LowerTrimmed(data.email) != Trimmed(taken.email)
              && Trim(Lower(data.username)) != Trim(taken.username)
  {
    if LowerTrimmed(data.email) == Trimmed(taken.email) then EmailTaken
    else if Trim(Lower(data.username)) == Trim(taken.username) then UsernameTaken
    else UsernameOrEmailTaken
  }

  /** When neither the request nor the conflicting user has an email, the
      two absent emails compare equal and the answer names the email. */
  lemma AbsentEmailsReportEmailTaken(data: AccountSettings, taken: UserRow)
    requires data.email.None? && taken.email.None?
    ensures ConflictMessage(data, taken) == EmailTaken
  {
  }

  // ---- Validation message ----

  /** `parts.join(sep)`. */
  function Join(parts: seq<string>, sep: string): (r: string)
    ensures parts == [] ==> r == ""
    ensures |parts| == 1 ==> r == parts[0]
    ensures |parts| >= 1 ==> StartsWith(r, parts[0])
    decreases |parts|
  {
    if parts == [] then ""
    else if |parts| == 1 then parts[0]
    else
      var r := parts[0] + sep + Join(parts[1..], sep);
      assert r[..|parts[0]|] == parts[0];
      r
  }

  /** Joining one more part appends the separator and that part. */
  lemma {:induction false} JoinAppend(parts: seq<string>, p: string, sep: string)
    requires |parts| >= 1
    ensures Join(parts + [p], sep) == Join(parts, sep) + sep + p
    decreases |parts|
  {
    if |parts| > 1 {
      assert (parts + [p])[1..] == parts[1..] + [p];
      JoinAppend(parts[1..], p, sep);
    }
  }

  /** The 400 answer for a failed validation: the first issue's message and
      its path joined with ", ", in brackets. */
  function ValidationMessage(issue: Issue): (m: string)
    ensures m == "Error: " + issue.message + " [" + Join(issue.path, ", ") + "]"
    ensures StartsWith(m, "Error: " + issue.message + " [")
    ensures EndsWith(m, "]")
    ensures issue.path == [] ==> m == "Error: " + issue.message + " []"
  {
    var m := "Error: " + issue.message + " [" + Join(issue.path, ", ") + "]";
    assert m[..|"Error: " + issue.message + " ["|] == "Error: " + issue.message + " [";
    m
  }

  // ---- Avatar ----

  const MaxAvatarLength := 1572864

  const JpegDataPrefix := "data:image/jpeg;base64"

  /** The avatar file of a user: `uploads/avatar/<id>.jpg`. */
  function AvatarPath(userId: int): (path: string)
    ensures StartsWith(path, "uploads/avatar/") && EndsWith(path, ".jpg")
  {
    var path := "uploads/avatar/" + IntToDecimal(userId) + ".jpg";
    assert path[..|"uploads/avatar/"|] == "uploads/avatar/";
    assert path[|path| - |".jpg"|..] == ".jpg";
    path
  }

  /** Different users never share an avatar file. */
  lemma AvatarPathsDistinct(a: int, b: int)
    ensures a != b ==> AvatarPath(a) != AvatarPath(b)
  {
    var prefix, suffix := "uploads/avatar/", ".jpg";
    var pa, pb := AvatarPath(a), AvatarPath(b);
    assert pa[|prefix|..|pa| - |suffix|] == IntToDecimal(a);
    assert pb[|prefix|..|pb| - |suffix|] == IntToDecimal(b);
    IntToDecimalInjective(a, b);
  }

  datatype AvatarAction = SaveJpeg(base64: string) | RejectTooLarge | RemoveAvatar | KeepAvatar

  /** `image.replace(/^data:image\/jpeg;base64,/, "")`: the prefix with its comma. */
  function StripJpegPrefix(image: string): string {
    if StartsWith(image, JpegDataPrefix + ",") then image[|JpegDataPrefix + ","|..] else image
  }

  /** The avatar branch: a small jpeg data url is saved, any image of 1.5 MiB
      or more is refused, an empty image removes the file. */
  function AvatarActionFor(image: Option<string>): (a: AvatarAction)
    ensures a.SaveJpeg? <==> image.Some? && StartsWith(image.value, JpegDataPrefix) && JsLength(image.value) < MaxAvatarLength
    ensures a.SaveJpeg? ==> a.base64 == StripJpegPrefix(image.value)
    ensures a == RejectTooLarge <==> image.Some? && JsLength(image.value) >= MaxAvatarLength
    ensures a == RemoveAvatar <==> image == Some("")
  {
    if image.Some? && StartsWith(image.value, JpegDataPrefix) && JsLength(image.value) < MaxAvatarLength then
      SaveJpeg(StripJpegPrefix(image.value))
    else if image.Some? && JsLength(image.value) > 0 && JsLength(image.value) >= MaxAvatarLength then RejectTooLarge
    else if image == Some("") then RemoveAvatar
    else KeepAvatar
  }

  /** The avatar files after the branch ran. */
  function ApplyAvatar(files: map<string, string>, userId: int, a: AvatarAction): (r: map<string, string>)
    ensures a.SaveJpeg? ==> r == files[AvatarPath(userId) := a.base64]
    ensures a == RemoveAvatar ==> r == files - {AvatarPath(userId)}
    ensures a == RejectTooLarge || a == KeepAvatar ==> r == files
  {
    match a
    case SaveJpeg(data) => files[AvatarPath(userId) := data]
    case RemoveAvatar => files - {AvatarPath(userId)}
    case _ => files
  }

  // ---- Email change ----

  datatype EmailChange = EmailChange(oldEmail: string, newEmail: string, displayName: string)

  datatype EmailStep = Unchanged | Verified(change: EmailChange) | EmailRejected(message: string)

  const InvalidPassword := "Invalid password."
  const NoPassword := "User has no password. Please reset your password from the forgot password page."
  const PasswordIncorrect := "Password is incorrect."

  /** Changing an existing email needs the current password. */
  function EmailStepFor(user: Option<UserRow>, data: AccountSettings, compare: (string, string) -> bool): (e: EmailStep)
    ensures !e.Unchanged? <==>
              user.Some? && StrTruthy(user.value.email) && StrTruthy(data.email) && data.email.value != user.value.email.value
    ensures e.Verified? ==>
              StrTruthy(data.password) && StrTruthy(user.value.password)
              && compare(data.password.value, user.value.password.value)
              && e.change.oldEmail == user.value.email.value && e.change.newEmail == data.email.value
    ensures (!e.Unchanged? && StrTruthy(data.password) && StrTruthy(user.value.password)
             && compare(data.password.value, user.value.password.value)) ==> e.Verified?
    ensures e.EmailRejected? ==>
              e.message == (if !StrTruthy(data.password) then InvalidPassword
                            else if !StrTruthy(user.value.password) then NoPassword
                            else PasswordIncorrect)
    ensures e.Verified? && data.name.Some? && !Blank(data.name.value) ==>
              e.change.displayName == Trim(data.name.value)
    ensures e.Verified? && (data.name.None? || Blank(data.name.value)) ==>
              e.change.displayName == (if StrTruthy(user.value.name) then user.value.name.value else "Linkwarden User")
  {
    if user.Some? && StrTruthy(user.value.email) && StrTruthy(data.email) && data.email.value != user.value.email.value then
      var u := user.value;
      if !StrTruthy(data.password) then EmailRejected(InvalidPassword)
      else if !StrTruthy(u.password) then EmailRejected(NoPassword)
      else if !compare(data.password.value, u.password.value) then EmailRejected(PasswordIncorrect)
      else
        var trimmedName := if data.name.Some? then TrimEmptyIffBlank(data.name.value); Trim(data.name.value) else "";
        var displayName := if trimmedName != "" then trimmedName
                           else if StrTruthy(u.name) then u.name.value
                           else "Linkwarden User";
        Verified(EmailChange(u.email.value, data.email.value, displayName))
    else Unchanged
  }

  // ---- Password change ----

  const FillAllFields := "Please fill out all the fields."
  const OldPasswordIncorrect := "Old password is incorrect."
  const PasswordTooShort := "Password must be at least 8 characters."
  const PasswordUnchanged := "New password must be different from the old password."

  /** Both password-change fields are filled in. */
  predicate BothPasswordFields(data: AccountSettings) {
    StrTruthy(data.oldPassword) && StrTruthy(data.newPassword)
  }

  predicate HasStoredPassword(user: Option<UserRow>) {
    user.Some? && StrTruthy(user.value.password)
  }

  /** The password-change checks, in order; the first failing one answers. */
  function PasswordError(user: Option<UserRow>, data: AccountSettings, compare: (string, string) -> bool): (err: Option<string>)
    ensures !StrTruthy(data.newPassword) && !StrTruthy(data.oldPassword) ==> err.None?
    ensures err == Some(FillAllFields) <==>
              (StrTruthy(data.newPassword) || StrTruthy(data.oldPassword)) && !BothPasswordFields(data)
    ensures BothPasswordFields(data) && !HasStoredPassword(user) ==> err == Some(NoPassword)
    ensures (BothPasswordFields(data) && HasStoredPassword(user)
             && !compare(data.oldPassword.value, user.value.password.value)) ==> err == Some(OldPasswordIncorrect)
    ensures (BothPasswordFields(data) && HasStoredPassword(user)
             && compare(data.oldPassword.value, user.value.password.value)
             && JsLength(data.newPassword.value) < 8) ==> err == Some(PasswordTooShort)
    ensures (BothPasswordFields(data) && HasStoredPassword(user)
             && compare(data.oldPassword.value, user.value.password.value)
             && JsLength(data.newPassword.value) >= 8
             && data.newPassword == data.oldPassword) ==> err == Some(PasswordUnchanged)
    ensures err.None? <==>
              (!StrTruthy(data.newPassword) && !StrTruthy(data.oldPassword))
              || (BothPasswordFields(data) && HasStoredPassword(user)
                  && compare(data.oldPassword.value, user.value.password.value)
                  && JsLength(data.newPassword.value) >= 8
                  && data.newPassword != data.oldPassword)
  {
    if StrTruthy(data.newPassword) || StrTruthy(data.oldPassword) then
      if !BothPasswordFields(data) then Some(FillAllFields)
      else if !HasStoredPassword(user) then Some(NoPassword)
      else if !compare(data.oldPassword.value, user.value.password.value) then Some(OldPasswordIncorrect)
      else if JsLength(data.newPassword.value) < 8 then Some(PasswordTooShort)
      else if data.newPassword == data.oldPassword then Some(PasswordUnchanged)
      else None
    else None
  }

  /** An invited user: no name yet, a parent subscription and no password. */
  predicate IsInvited(user: Option<UserRow>) {
    user.Some? && user.value.name.None? && NumTruthy(user.value.parentSubscriptionId)
    && !StrTruthy(user.value.password)
  }

  const PasswordRequired := "Password is required."

  /** An invited user has no stored password, so the old/new password
      fields can only be refused for it. */
  lemma InvitedCannotChangePassword(user: Option<UserRow>, data: AccountSettings, compare: (string, string) -> bool)
    requires IsInvited(user) && BothPasswordFields(data)
    ensures PasswordError(user, data, compare) == Some(NoPassword)
  {
  }

  // ---- Derived fields ----

  /** The stored image: a remote url is kept, any other non-empty image
      becomes the avatar file's path, no image becomes "". */
  function StoredImage(userId: int, image: Option<string>): (r: string)
    ensures StrTruthy(image) && StartsWith(image.value, "http") ==> r == image.value
    ensures StrTruthy(image) && !StartsWith(image.value, "http") ==> r == AvatarPath(userId)
    ensures !StrTruthy(image) ==> r == ""
  {
    if StrTruthy(image) && StartsWith(image.value, "http") then image.value
    else if StrTruthy(image) then AvatarPath(userId)
    else ""
  }

  /** `locales.includes(locale || "") ? locale : "en"`. */
  function LocaleFor(locale: Option<string>, locales: seq<string>): (r: Option<string>)
    ensures locale.Some? && locale.value in locales ==> r == locale
    ensures (locale.None? || locale.value !in locales) && "" !in locales ==> r == Some("en")
  {
    if locale.GetOr("") in locales then locale else Some("en")
  }

  /** `referredBy` is written once: only while unset, and only with a value. */
  function ReferredByWrite(user: Option<UserRow>, data: AccountSettings): (r: Option<string>)
    ensures r.Some? <==> (user.None? || !StrTruthy(user.value.referredBy)) && StrTruthy(data.referredBy)
    ensures r.Some? ==> r == data.referredBy
  {
    if (user.None? || !StrTruthy(user.value.referredBy)) && StrTruthy(data.referredBy) then data.referredBy else None
  }

  /** The password written: for an invited user or a non-empty new password. */
  function PasswordWrite(invited: bool, data: AccountSettings, hash: string -> string): (r: Option<string>)
    ensures r.Some? <==> invited || StrTruthy(data.newPassword)
    ensures StrTruthy(data.newPassword) ==> r == Some(hash(data.newPassword.value))
    ensures invited && !StrTruthy(data.newPassword) ==> r == Some(hash(data.password.GetOr("")))
  {
    var plain := if StrTruthy(data.newPassword) then data.newPassword.value
                 else if StrTruthy(data.password) then data.password.value
                 else "";
    if invited || StrTruthy(data.newPassword) then Some(hash(plain)) else None
  }

  // ---- De-duplication of the collection order ----

  /** `s.indexOf(x)`: the first position of `x`, or -1. */
  function IndexOf(s: seq<int>, x: int): (i: int)
    ensures -1 <= i < |s|
    ensures i >= 0 ==> s[i] == x && forall j :: 0 <= j < i ==> s[j] != x
    ensures i == -1 ==> x !in s
  {
    if s == [] then -1
    else if s[0] == x then 0
    else var r := IndexOf(s[1..], x); if r == -1 then -1 else r + 1
  }

  /** `s.filter((value, index, self) => self.indexOf(value) === index)`, from position `k` on. */
  function KeepFirstFrom(s: seq<int>, k: nat): (r: seq<int>)
    requires k <= |s|
    ensures forall x :: x in r ==> IndexOf(s, x) >= k
    decreases |s| - k
  {
    if k == |s| then []
    else (if IndexOf(s, s[k]) == k then [s[k]] else []) + KeepFirstFrom(s, k + 1)
  }

  /** The de-duplicated collection order has no repeated id, the same ids
      as the request, and keeps each id at its first occurrence, in order. */
  function DedupCollectionOrder(s: seq<int>): (r: seq<int>)
    ensures r == FirstOccurrences(s, {})
    ensures Distinct(r)
    ensures forall x :: x in r <==> x in s
  {
    CollectionOrderDeduplicated(s);
    KeepFirstFrom(s, 0)
  }

  /** An independent reading: walk the list, keeping each value not seen before. */
  function FirstOccurrences(s: seq<int>, seen: set<int>): seq<int>
    decreases |s|
  {
    if s == [] then []
    else if s[0] in seen then FirstOccurrences(s[1..], seen)
    else [s[0]] + FirstOccurrences(s[1..], seen + {s[0]})
  }

  predicate Distinct(s: seq<int>) {
    forall i, j :: 0 <= i < j < |s| ==> s[i] != s[j]
  }

  /** The values before position `k`. */
  function Seen(s: seq<int>, k: nat): set<int>
    requires k <= |s|
  {
    set x | x in s[..k]
  }

  lemma SeenExtends(s: seq<int>, k: nat)
    requires k < |s|
    ensures Seen(s, k + 1) == Seen(s, k) + {s[k]}
  {
    var longer := s[..k + 1];
    assert longer == s[..k] + [s[k]];
  }

  /** `indexOf` finds a value at its own position exactly when no earlier position holds it. */
  lemma IndexOfIsOwnPosition(s: seq<int>, k: nat)
    requires k < |s|
    ensures IndexOf(s, s[k]) == k <==> s[k] !in Seen(s, k)
  {
    if s[k] in s[..k] {
      var j :| 0 <= j < k && s[..k][j] == s[k];
      assert s[j] == s[k];
    }
  }

  lemma {:induction false} KeepFirstIsFirstOccurrences(s: seq<int>, k: nat)
    requires k <= |s|
    ensures KeepFirstFrom(s, k) == FirstOccurrences(s[k..], Seen(s, k))
    decreases |s| - k
  {
    if k < |s| {
      var x := s[k];
      var after := s[k + 1..];
      KeepFirstIsFirstOccurrences(s, k + 1);
      IndexOfIsOwnPosition(s, k);
      SeenExtends(s, k);
      assert s[k..][0] == x && s[k..][1..] == after;
      if x in Seen(s, k) {
        assert Seen(s, k + 1) == Seen(s, k);
      }
    }
  }

  lemma {:induction false} FirstOccurrencesProps(s: seq<int>, seen: set<int>)
    ensures var r := FirstOccurrences(s, seen);
            Distinct(r)
            && (forall x :: x in r <==> x in s && x !in seen)
    decreases |s|
  {
    if s != [] {
      FirstOccurrencesProps(s[1..], if s[0] in seen then seen else seen + {s[0]});
      if s[0] !in seen {
        var t := FirstOccurrences(s[1..], seen + {s[0]});
        var r := [s[0]] + t;
        forall i, j | 0 <= i < j < |r| ensures r[i] != r[j] {
          if i == 0 { assert r[j] == t[j - 1] && r[j] in t; }
          else { assert r[i] == t[i - 1] && r[j] == t[j - 1]; }
        }
      }
    }
  }

  /** Filtering from the start is the walk that keeps first occurrences. */
  lemma CollectionOrderDeduplicated(s: seq<int>)
    ensures KeepFirstFrom(s, 0) == FirstOccurrences(s, {})
    ensures Distinct(KeepFirstFrom(s, 0))
    ensures forall x :: x in KeepFirstFrom(s, 0) <==> x in s
  {
    KeepFirstIsFirstOccurrences(s, 0);
    assert s[..0] == [] && s[0..] == s;
    assert Seen(s, 0) == {};
    FirstOccurrencesProps(s, {});
  }

  // ---- The user update ----

  /** The `data` of the user update; `None` leaves a column as it is. */
  datatype UserUpdate = UserUpdate(
    name: Option<string>,
    username: string,
    isPrivate: Option<bool>,
    image: string,
    collectionOrder: Option<seq<int>>,
    locale: Option<string>,
    archive: ArchivePrefs,
    referredBy: Option<string>,
    password: Option<string>)

  function BuildUpdate(userId: int, data: AccountSettings, user: Option<UserRow>,
                       hash: string -> string, locales: seq<string>): (u: UserUpdate)
    ensures u.image == StoredImage(userId, data.image)
    ensures u.collectionOrder.Some? <==> data.collectionOrder.Some?
    ensures u.collectionOrder.Some? ==> u.collectionOrder.value == DedupCollectionOrder(data.collectionOrder.value)
    ensures u.locale == LocaleFor(data.locale, locales)
    ensures u.referredBy == ReferredByWrite(user, data)
    ensures u.password == PasswordWrite(IsInvited(user), data, hash)
    ensures u.name == data.name && u.username == data.username && u.archive == data.archive
    ensures u.isPrivate == data.isPrivate
  {
    UserUpdate(
      data.name,
      data.username,
      data.isPrivate,
      StoredImage(userId, data.image),
      if data.collectionOrder.Some? then Some(DedupCollectionOrder(data.collectionOrder.value)) else None,
      LocaleFor(data.locale, locales),
      data.archive,
      ReferredByWrite(user, data),
      PasswordWrite(IsInvited(user), data, hash))
  }

  /** The stored archive preferences after the update: each given flag
      replaces the stored one, each absent flag leaves it. */
  function ApplyPrefs(p: StoredPrefs, a: ArchivePrefs): (r: StoredPrefs)
    ensures r.screenshot == (if a.screenshot.Some? then a.screenshot.value else p.screenshot)
    ensures r.monolith == (if a.monolith.Some? then a.monolith.value else p.monolith)
    ensures r.pdf == (if a.pdf.Some? then a.pdf.value else p.pdf)
    ensures r.readable == (if a.readable.Some? then a.readable.value else p.readable)
    ensures r.wayback == (if a.wayback.Some? then a.wayback.value else p.wayback)
  {
    StoredPrefs(a.screenshot.GetOr(p.screenshot), a.monolith.GetOr(p.monolith), a.pdf.GetOr(p.pdf),
                a.readable.GetOr(p.readable), a.wayback.GetOr(p.wayback))
  }

  /** The row after the update: absent fields keep their stored value. */
  function ApplyUpdate(row: UserRow, u: UserUpdate): (r: UserRow)
    ensures r.id == row.id && r.email == row.email && r.parentSubscriptionId == row.parentSubscriptionId
    ensures r.username == u.username && r.image == u.image
    ensures r.password == (if u.password.Some? then u.password else row.password)
    ensures r.referredBy == (if u.referredBy.Some? then u.referredBy else row.referredBy)
    ensures r.name == (if u.name.Some? then u.name else row.name)
    ensures r.isPrivate == (if u.isPrivate.Some? then u.isPrivate.value else row.isPrivate)
    ensures r.collectionOrder == (if u.collectionOrder.Some? then u.collectionOrder.value else row.collectionOrder)
    ensures r.locale == (if u.locale.Some? then u.locale.value else row.locale)
    ensures r.archive == ApplyPrefs(row.archive, u.archive)
  {
    row.(
      name := if u.name.Some? then u.name else row.name,
      username := u.username,
      isPrivate := u.isPrivate.GetOr(row.isPrivate),
      image := u.image,
      collectionOrder := u.collectionOrder.GetOr(row.collectionOrder),
      locale := u.locale.GetOr(row.locale),
      archive := ApplyPrefs(row.archive, u.archive),
      referredBy := if u.referredBy.Some? then u.referredBy else row.referredBy,
      password := if u.password.Some? then u.password else row.password)
  }

  /** Applying the same update twice changes nothing more. */
  lemma ApplyUpdateIdempotent(row: UserRow, u: UserUpdate)
    ensures ApplyUpdate(ApplyUpdate(row, u), u) == ApplyUpdate(row, u)
  {
  }

  /** A stored referral is never overwritten. */
  lemma ReferralWrittenOnce(row: UserRow, userId: int, data: AccountSettings, hash: string -> string, locales: seq<string>)
    requires StrTruthy(row.referredBy)
    ensures ApplyUpdate(row, BuildUpdate(userId, data, Some(row), hash, locales)).referredBy == row.referredBy
  {
  }

  /** An invited user whose request carries no password at all is not
      refused, and gets the hash of the empty string as password. */
  lemma InvitedWithoutPasswordStoresEmptyHash(userId: int, data: AccountSettings, user: Option<UserRow>,
                                              hash: string -> string, locales: seq<string>)
    requires IsInvited(user) && data.password.None? && !StrTruthy(data.newPassword)
    ensures BuildUpdate(userId, data, user, hash, locales).password == Some(hash(""))
  {
  }

  // ---- The decision cascade ----

  /** How the request ends: a 400 message, the update of a user that does
      not exist (the ORM throws), or the write. */
  datatype Verdict = Reject(message: string) | NotFound | Write(update: UserUpdate)

  /** The effects performed before the verdict, and the verdict. */
  datatype Decision = Decision(avatar: AvatarAction, email: Option<EmailChange>, verdict: Verdict)

  const AvatarTooLarge := "A file larger than 1.5MB was uploaded."

  /** The checks run in order and the first that fails answers; the avatar
      and email effects of the checks already passed stay. */
  function Decide(userId: int, parsed: Parsed, taken: Option<UserRow>, user: Option<UserRow>,
                  compare: (string, string) -> bool, hash: string -> string, locales: seq<string>): (d: Decision)
    ensures parsed.ParseError? ==> d == Decision(KeepAvatar, None, Reject(ValidationMessage(parsed.issue)))
    ensures parsed.Parsed? && taken.Some? ==>
              d == Decision(KeepAvatar, None, Reject(ConflictMessage(parsed.data, taken.value)))
    ensures parsed.Parsed? && taken.None? ==> d.avatar == AvatarActionFor(parsed.data.image)
    ensures parsed.Parsed? && taken.None? && AvatarActionFor(parsed.data.image) == RejectTooLarge ==>
              d == Decision(RejectTooLarge, None, Reject(AvatarTooLarge))
    ensures parsed.Parsed? && taken.None? && AvatarActionFor(parsed.data.image) != RejectTooLarge ==>
              var step := EmailStepFor(user, parsed.data, compare);
              && (step.EmailRejected? ==> d.email.None? && d.verdict == Reject(step.message))
              && (step.Verified? ==> d.email == Some(step.change))
              && (step.Unchanged? ==> d.email.None?)
              && (!step.EmailRejected? && PasswordError(user, parsed.data, compare).Some? ==>
                    d.verdict == Reject(PasswordError(user, parsed.data, compare).value))
              && (!step.EmailRejected? && PasswordError(user, parsed.data, compare).None?
                  && IsInvited(user) && parsed.data.password == Some("") ==>
                    d.verdict == Reject(PasswordRequired))
              && (!step.EmailRejected? && PasswordError(user, parsed.data, compare).None?
                  && !(IsInvited(user) && parsed.data.password == Some("")) ==>
                    d.verdict == (if user.None? then NotFound
                                  else Write(BuildUpdate(userId, parsed.data, user, hash, locales))))
    ensures d.email.Some? ==> parsed.Parsed? && EmailStepFor(user, parsed.data, compare) == Verified(d.email.value)
    ensures d.verdict.Write? ==>
              && parsed.Parsed? && taken.None? && user.Some?
              && AvatarActionFor(parsed.data.image) != RejectTooLarge
              && !EmailStepFor(user, parsed.data, compare).EmailRejected?
              && PasswordError(user, parsed.data, compare).None?
              && !(IsInvited(user) && parsed.data.password == Some(""))
              && d.verdict.update == BuildUpdate(userId, parsed.data, user, hash, locales)
  {
    match parsed
    case ParseError(issue) => Decision(KeepAvatar, None, Reject(ValidationMessage(issue)))
    case Parsed(data) =>
      if taken.Some? then Decision(KeepAvatar, None, Reject(ConflictMessage(data, taken.value)))
      else
        var avatar := AvatarActionFor(data.image);
        if avatar == RejectTooLarge then Decision(avatar, None, Reject(AvatarTooLarge))
        else
          var step := EmailStepFor(user, data, compare);
          if step.EmailRejected? then Decision(avatar, None, Reject(step.message))
          else
            var email := if step.Verified? then Some(step.change) else None;
            var pwError := PasswordError(user, data, compare);
            if pwError.Some? then Decision(avatar, email, Reject(pwError.value))
            else if IsInvited(user) && data.password == Some("") then Decision(avatar, email, Reject(PasswordRequired))
            else if user.None? then Decision(avatar, email, NotFound)
            else Decision(avatar, email, Write(BuildUpdate(userId, data, user, hash, locales)))
  }

  /** A saved avatar stays saved when a later check refuses the request. */
  lemma AvatarSavedDespiteLaterRefusal(userId: int, data: AccountSettings, user: Option<UserRow>,
                                       compare: (string, string) -> bool, hash: string -> string, locales: seq<string>)
    requires AvatarActionFor(data.image).SaveJpeg?
    requires EmailStepFor(user, data, compare).EmailRejected? || PasswordError(user, data, compare).Some?
    ensures var d := Decide(userId, Parsed(data), None, user, compare, hash, locales);
            d.verdict.Reject? && d.avatar.SaveJpeg?
  {
  }

  // ---- The whitelist ----

  datatype WhitelistRow = WhitelistRow(username: string, userId: int)

  /** The usernames the user has whitelisted, in row order. */
  function NamesOf(rows: seq<WhitelistRow>, userId: int): seq<string>
    decreases |rows|
  {
    if rows == [] then []
    else (if rows[0].userId == userId then [rows[0].username] else []) + NamesOf(rows[1..], userId)
  }

  /** The rows of every other user, in order. */
  function OthersOf(rows: seq<WhitelistRow>, userId: int): seq<WhitelistRow>
    decreases |rows|
  {
    if rows == [] then []
    else (if rows[0].userId != userId then [rows[0]] else []) + OthersOf(rows[1..], userId)
  }

  /** `current.filter((u) => !newNames.includes(u))`. */
  function NamesToDelete(current: seq<string>, newNames: seq<string>): (r: seq<string>)
    ensures forall n :: n in r <==> n in current && n !in newNames
    decreases |current|
  {
    if current == [] then []
    else (if current[0] !in newNames then [current[0]] else []) + NamesToDelete(current[1..], newNames)
  }

  /** `newNames.filter((u) => !current.includes(u) && u.trim() !== "")`. */
  function NamesToCreate(newNames: seq<string>, current: seq<string>): (r: seq<string>)
    ensures forall n :: n in r <==> n in newNames && n !in current && Trim(n) != ""
    decreases |newNames|
  {
    if newNames == [] then []
    else (if newNames[0] !in current && Trim(newNames[0]) != "" then [newNames[0]] else [])
         + NamesToCreate(newNames[1..], current)
  }

  /** `deleteMany` of the user's rows whose username is listed. */
  function DeleteRows(rows: seq<WhitelistRow>, userId: int, names: seq<string>): seq<WhitelistRow>
    decreases |rows|
  {
    if rows == [] then []
    else (if rows[0].userId == userId && rows[0].username in names then [] else [rows[0]])
         + DeleteRows(rows[1..], userId, names)
  }

  function RowsFor(names: seq<string>, userId: int): (r: seq<WhitelistRow>)
    ensures |r| == |names|
    ensures forall i :: 0 <= i < |r| ==> r[i] == WhitelistRow(names[i], userId)
  {
    seq(|names|, i requires 0 <= i < |names| => WhitelistRow(names[i], userId))
  }

  /** The rows after the sync: the deletions, then one created row per new name. */
  /** After the sync the user's whitelist holds exactly the requested names,
      except new blank ones; the other users' rows are untouched. */
  function SyncedRows(rows: seq<WhitelistRow>, userId: int, newNames: seq<string>): (r: seq<WhitelistRow>)
    ensures forall n :: n in NamesOf(r, userId) <==> n in newNames && (n in NamesOf(rows, userId) || Trim(n) != "")
    ensures OthersOf(r, userId) == OthersOf(rows, userId)
  {
    var current := NamesOf(rows, userId);
    var deleted := DeleteRows(rows, userId, NamesToDelete(current, newNames));
    var created := NamesToCreate(newNames, current);
    NamesOfAppend(deleted, RowsFor(created, userId), userId);
    OthersOfAppend(deleted, RowsFor(created, userId), userId);
    RowsForNames(created, userId);
    DeleteRowsNames(rows, userId, NamesToDelete(current, newNames));
    assert OthersOf(deleted, userId) + [] == OthersOf(deleted, userId);
    deleted + RowsFor(created, userId)
  }

  lemma {:induction false} NamesOfAppend(a: seq<WhitelistRow>, b: seq<WhitelistRow>, userId: int)
    ensures NamesOf(a + b, userId) == NamesOf(a, userId) + NamesOf(b, userId)
    decreases |a|
  {
    if a == [] {
      assert a + b == b;
    } else {
      var ab := a + b;
      assert ab[0] == a[0] && ab[1..] == a[1..] + b;
      NamesOfAppend(a[1..], b, userId);
      var head := if a[0].userId == userId then [a[0].username] else [];
      assert NamesOf(ab, userId) == head + NamesOf(a[1..] + b, userId);
      assert NamesOf(a, userId) == head + NamesOf(a[1..], userId);
    }
  }

  lemma {:induction false} OthersOfAppend(a: seq<WhitelistRow>, b: seq<WhitelistRow>, userId: int)
    ensures OthersOf(a + b, userId) == OthersOf(a, userId) + OthersOf(b, userId)
    decreases |a|
  {
    if a == [] {
      assert a + b == b;
    } else {
      var ab := a + b;
      assert ab[0] == a[0] && ab[1..] == a[1..] + b;
      OthersOfAppend(a[1..], b, userId);
      var head := if a[0].userId != userId then [a[0]] else [];
      assert OthersOf(ab, userId) == head + OthersOf(a[1..] + b, userId);
      assert OthersOf(a, userId) == head + OthersOf(a[1..], userId);
    }
  }

  lemma {:induction false} RowsForNames(names: seq<string>, userId: int)
    ensures NamesOf(RowsFor(names, userId), userId) == names
    ensures OthersOf(RowsFor(names, userId), userId) == []
    decreases |names|
  {
    if names != [] {
      RowsForNames(names[1..], userId);
      assert RowsFor(names, userId)[1..] == RowsFor(names[1..], userId);
    }
  }

  lemma {:induction false} DeleteRowsNames(rows: seq<WhitelistRow>, userId: int, names: seq<string>)
    ensures forall n :: n in NamesOf(DeleteRows(rows, userId, names), userId) <==> n in NamesOf(rows, userId) && n !in names
    ensures OthersOf(DeleteRows(rows, userId, names), userId) == OthersOf(rows, userId)
    decreases |rows|
  {
    if rows != [] {
      DeleteRowsNames(rows[1..], userId, names);
      var head := if rows[0].userId == userId && rows[0].username in names then [] else [rows[0]];
      NamesOfAppend(head, DeleteRows(rows[1..], userId, names), userId);
      OthersOfAppend(head, DeleteRows(rows[1..], userId, names), userId);
      assert NamesOf([rows[0]], userId) == (if rows[0].userId == userId then [rows[0].username] else []);
      assert OthersOf([rows[0]], userId) == (if rows[0].userId != userId then [rows[0]] else []);
    }
  }

  /** When the stored whitelist has no blank name, the result is the
      requested list without its blank names. */
  lemma SyncedIsRequestedWithoutBlanks(rows: seq<WhitelistRow>, userId: int, newNames: seq<string>)
    requires forall n :: n in NamesOf(rows, userId) ==> !Blank(n)
    ensures forall n :: n in NamesOf(SyncedRows(rows, userId, newNames), userId) <==> n in newNames && !Blank(n)
  {
    var synced := NamesOf(SyncedRows(rows, userId, newNames), userId);
    forall n ensures n in synced <==> n in newNames && !Blank(n) {
      TrimEmptyIffBlank(n);
    }
  }

  // ---- The endpoint ----

  datatype Body = Message(text: string) | Account(user: UserRow, whitelistedUsers: seq<string>)

  datatype Reply = Replied(status: int, body: Body) | Thrown

  /** The image in the answer: a stored image gets the clock reading
      appended as a query string, so that browsers refetch it. */
  function ResponseImage(image: string, now: nat): (r: string)
    ensures image == "" ==> r == ""
    ensures image != "" ==> StartsWith(r, image + "?") && |r| > |image| + 1
    ensures image != "" ==> IsDigits(r[|image| + 1..]) && DecimalValue(r[|image| + 1..]) == now
  {
    if image != "" then
      var r := image + "?" + NatToDecimal(now);
      assert r[..|image + "?"|] == image + "?";
      assert r[|image| + 1..] == NatToDecimal(now);
      r
    else ""
  }

  /** The stored user as the answer shows it: without the password, with
      the cache-busted image, every other column as stored. */
  function AccountView(row: UserRow, now: nat): (v: UserRow)
    ensures v.password.None?
    ensures v.image == ResponseImage(row.image, now)
    ensures v.(password := row.password, image := row.image) == row
  {
    row.(password := None, image := ResponseImage(row.image, now))
  }

  function UserOf(users: map<int, UserRow>, userId: int): Option<UserRow> {
    if userId in users then Some(users[userId]) else None
  }

  class AccountStore {
    var users: map<int, UserRow>
    /** The upload folder: path to base64 content. */
    var files: map<string, string>
    var whitelist: seq<WhitelistRow>
    /** Email-change verification requests sent, oldest first. */
    var emailRequests: seq<EmailChange>

    constructor (users: map<int, UserRow>, files: map<string, string>, whitelist: seq<WhitelistRow>)
      ensures this.users == users && this.files == files && this.whitelist == whitelist && emailRequests == []
    {
      this.users := users;
      this.files := files;
      this.whitelist := whitelist;
      emailRequests := [];
    }

    /** Delete the user's rows that are no longer requested, then create the
        missing non-blank ones one by one. */
    method SyncWhitelist(userId: int, newNames: seq<string>)
      modifies this`whitelist
      ensures whitelist == SyncedRows(old(whitelist), userId, newNames)
      ensures forall n :: n in NamesOf(whitelist, userId)
                          <==> n in newNames && (n in NamesOf(old(whitelist), userId) || Trim(n) != "")
      ensures OthersOf(whitelist, userId) == OthersOf(old(whitelist), userId)
    {
      var current := NamesOf(whitelist, userId);
      var usernamesToDelete := NamesToDelete(current, newNames);
      var usernamesToCreate := NamesToCreate(newNames, current);
      whitelist := DeleteRows(whitelist, userId, usernamesToDelete);
      ghost var afterDelete := whitelist;
      for i := 0 to |usernamesToCreate|
        invariant whitelist == afterDelete + RowsFor(usernamesToCreate[..i], userId)
      {
        assert RowsFor(usernamesToCreate[..i + 1], userId)
               == RowsFor(usernamesToCreate[..i], userId) + [WhitelistRow(usernamesToCreate[i], userId)];
        whitelist := whitelist + [WhitelistRow(usernamesToCreate[i], userId)];
      }
      assert usernamesToCreate[..|usernamesToCreate|] == usernamesToCreate;
    }

    /** The avatar branch's effect on the upload folder. */
    method ActOnAvatar(userId: int, avatar: AvatarAction)
      modifies this`files
      ensures files == ApplyAvatar(old(files), userId, avatar)
    {
      if avatar.SaveJpeg? {
        files := files[AvatarPath(userId) := avatar.base64];
      } else if avatar == RemoveAvatar {
        files := files - {AvatarPath(userId)};
      }
    }

    /** The write: the user row takes the update, the whitelist is
        synchronised, and the answer shows the stored user. */
    method Commit(userId: int, row: UserRow, update: UserUpdate, newNames: seq<string>, now: nat) returns (reply: Reply)
      modifies this`users, this`whitelist
      ensures users == old(users)[userId := ApplyUpdate(row, update)]
      ensures whitelist == SyncedRows(old(whitelist), userId, newNames)
      ensures reply == Replied(200, Account(AccountView(users[userId], now), newNames))
    {
      users := users[userId := ApplyUpdate(row, update)];
      SyncWhitelist(userId, newNames);
      reply := Replied(200, Account(AccountView(users[userId], now), newNames));
    }

    /** The endpoint, step by step, returning at the first failed check. */
    method UpdateUserById(userId: int, parsed: Parsed, taken: Option<UserRow>,
                          compare: (string, string) -> bool, hash: string -> string, locales: seq<string>, now: nat)
      returns (reply: Reply)
      modifies this
      ensures var d := Decide(userId, parsed, taken, UserOf(old(users), userId), compare, hash, locales);
              && files == ApplyAvatar(old(files), userId, d.avatar)
              && emailRequests == old(emailRequests) + (if d.email.Some? then [d.email.value] else [])
              && (d.verdict.Reject? ==> reply == Replied(400, Message(d.verdict.message))
                                        && users == old(users) && whitelist == old(whitelist))
              && (d.verdict.NotFound? ==> reply == Thrown && users == old(users) && whitelist == old(whitelist))
              && (d.verdict.Write? ==>
                    && users == old(users)[userId := ApplyUpdate(old(users)[userId], d.verdict.update)]
                    && whitelist == SyncedRows(old(whitelist), userId, parsed.data.whitelistedUsers.GetOr([]))
                    && reply == Replied(200, Account(AccountView(users[userId], now), parsed.data.whitelistedUsers.GetOr([]))))
    {
      if parsed.ParseError? {
        return Replied(400, Message(ValidationMessage(parsed.issue)));
      }
      var data := parsed.data;

      if taken.Some? {
        return Replied(400, Message(ConflictMessage(data, taken.value)));
      }

      var avatar := AvatarActionFor(data.image);
      if avatar == RejectTooLarge {
        return Replied(400, Message(AvatarTooLarge));
      }
      ActOnAvatar(userId, avatar);

      var user := UserOf(users, userId);

      var step := EmailStepFor(user, data, compare);
      if step.EmailRejected? {
        return Replied(400, Message(step.message));
      } else if step.Verified? {
        emailRequests := emailRequests + [step.change];
      }

      var pwError := PasswordError(user, data, compare);
      if pwError.Some? {
        return Replied(400, Message(pwError.value));
      }

      if IsInvited(user) && data.password == Some("") {
        return Replied(400, Message(PasswordRequired));
      }

      if user.None? {
        return Thrown;
      }

      var update := BuildUpdate(userId, data, user, hash, locales);
      reply := Commit(userId, user.value, update, data.whitelistedUsers.GetOr([]), now);
    }
  }
}
