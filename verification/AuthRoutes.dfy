/**
 * Login redirects and the forced password change of
 * app/routes/auth_routes.py. `urlparse` is modelled as far as
 * `is_safe_redirect` reads it: the scheme and the network location.
 */
module AuthRoutes {
  import opened Wrappers
  import opened Users

  // ---------------------------------------------------------------------
  // `urlparse`, scheme and network location
  // ---------------------------------------------------------------------

  /** The C0 controls and space that `urlsplit` strips from the front. */
  predicate IsC0OrSpace(c: char)
  {
    c <= ' '
  }

  function LStripC0(s: string): (r: string)
    ensures |r| <= |s| && r == s[|s| - |r|..]
    ensures r == [] || !IsC0OrSpace(r[0])
  {
    if s != [] && IsC0OrSpace(s[0]) then LStripC0(s[1..]) else s
  }

  /** Tab, carriage return and line feed, which `urlsplit` deletes everywhere. */
  predicate IsUnsafe(c: char)
  {
    c == '\t' || c == '\r' || c == '\n'
  }

  function RemoveUnsafe(s: string): (r: string)
    ensures |r| <= |s|
    ensures forall i :: 0 <= i < |r| ==> !IsUnsafe(r[i])
  {
    if s == [] then []
    else if IsUnsafe(s[|s| - 1]) then RemoveUnsafe(s[..|s| - 1])
    else RemoveUnsafe(s[..|s| - 1]) + [s[|s| - 1]]
  }

  predicate IsAsciiLetter(c: char)
  {
    'a' <= c <= 'z' || 'A' <= c <= 'Z'
  }

  /** The characters a scheme may hold. */
  predicate IsSchemeChar(c: char)
  {
    IsAsciiLetter(c) || '0' <= c <= '9' || c == '+' || c == '-' || c == '.'
  }

  function AsciiLower(s: string): (r: string)
    ensures |r| == |s|
  {
    if s == [] then []
    else
      var c := s[0];
      [if 'A' <= c <= 'Z' then (c as int + 32) as char else c] + AsciiLower(s[1..])
  }

  /** `s.find(c)`: the first index of `c`. */
  function Find(s: string, c: char): (r: Option<nat>)
    ensures r.Some? ==> r.value < |s| && s[r.value] == c && c !in s[..r.value]
    ensures r.None? ==> c !in s
  {
    if s == [] then None
    else if s[0] == c then Some(0)
    else
      match Find(s[1..], c)
      case None => None
      case Some(i) => assert s[..i + 1] == [s[0]] + s[1..][..i]; Some(i + 1)
  }

  /** The first index at or after `from` of '/', '?' or '#', or the length. */
  function NetlocEnd(s: string, from: nat): (r: nat)
    requires from <= |s|
    ensures from <= r <= |s|
    ensures forall i :: from <= i < r ==> s[i] != '/' && s[i] != '?' && s[i] != '#'
    ensures r < |s| ==> s[r] == '/' || s[r] == '?' || s[r] == '#'
    decreases |s| - from
  {
    if from == |s| || s[from] == '/' || s[from] == '?' || s[from] == '#' then from
    else NetlocEnd(s, from + 1)
  }

  /** The scheme and network location `urlparse(url)` reports. */
  datatype UrlParts = UrlParts(scheme: string, netloc: string)

  /** The scheme (lower-cased) and the rest, when the text before the first ':' is a scheme. */
  function SplitScheme(s: string): (r: (string, string))
    ensures s == [] || !IsAsciiLetter(s[0]) ==> r == ("", s)
  {
    var i := Find(s, ':');
    if i.Some? && i.value > 0 && IsAsciiLetter(s[0]) && forall k :: 0 <= k < i.value ==> IsSchemeChar(s[k]) then
      (AsciiLower(s[..i.value]), s[i.value + 1..])
    else ("", s)
  }

  /** The network location: what follows a leading "//" up to the next '/', '?' or '#'. */
  function NetlocOf(rest: string): (r: string)
    ensures r != "" ==> |rest| >= 3 && rest[..2] == "//"
  {
    if |rest| >= 2 && rest[..2] == "//" then rest[2..NetlocEnd(rest, 2)] else ""
  }

  function UrlParse(url: string): (r: UrlParts)
  {
    var split := SplitScheme(RemoveUnsafe(LStripC0(url)));
    UrlParts(split.0, NetlocOf(split.1))
  }

  /** A URL that starts with '/' has no scheme: a scheme must start with a letter. */
  lemma SlashHasNoScheme(url: string)
    ensures url != [] && url[0] == '/' ==> UrlParse(url).scheme == ""
  {
    if url != [] && url[0] == '/' {
      assert LStripC0(url) == url;
      SlashFirst(url);
      assert UrlParse(url).scheme == SplitScheme(RemoveUnsafe(url)).0;
    }
  }

  /** Deleting tabs and line breaks keeps a leading '/'. */
  lemma {:induction false} SlashFirst(s: string)
    requires s != [] && s[0] == '/'
    ensures RemoveUnsafe(s) != [] && RemoveUnsafe(s)[0] == '/'
    decreases |s|
  {
    if |s| > 1 {
      SlashFirst(s[..|s| - 1]);
      assert s[..|s| - 1][0] == '/';
    }
  }

  // ---------------------------------------------------------------------
  // `is_safe_redirect` and the login redirects
  // ---------------------------------------------------------------------

  /** `is_safe_redirect`: a local path, with no scheme and no network location. */
  function IsSafeRedirect(url: Option<string>): (r: bool)
    ensures url.None? || url == Some("") ==> !r
    ensures r <==> url.Some? && url.value != [] && url.value[0] == '/' &&
                   !(|url.value| >= 2 && url.value[1] == '/') && UrlParse(url.value).netloc == ""
  {
    if url.None? || url.value == "" then false
    else
      var parsed := UrlParse(url.value);
      var u := url.value;
      SlashHasNoScheme(u);
      assert |u| >= 2 ==> (u[..2] == "//" <==> u[0] == '/' && u[1] == '/');
      parsed.scheme == "" && parsed.netloc == "" && u[0] == '/' && !(|u| >= 2 && u[..2] == "//")
  }

  /** A path that starts with one '/' and holds no tab or line break is safe. */
  lemma PlainPathSafe(u: string)
    requires u != [] && u[0] == '/' && !(|u| >= 2 && u[1] == '/')
    requires forall i :: 0 <= i < |u| ==> !IsUnsafe(u[i])
    ensures IsSafeRedirect(Some(u))
  {
    assert LStripC0(u) == u;
    RemoveUnsafeKeeps(u);
    assert SplitScheme(u) == ("", u);
    assert |u| >= 2 ==> u[..2] != "//";
    assert NetlocOf(u) == "";
  }

  /**
   * A path whose tabs or line breaks hide a second '/' is refused: `urlparse`
   * deletes them and reads what follows "//" as a network location.
   */
  lemma HiddenHostRefused(u: string)
    requires u != [] && u[0] == '/'
    requires var s := RemoveUnsafe(u); |s| >= 3 && s[1] == '/' && s[2] != '/' && s[2] != '?' && s[2] != '#'
    ensures !IsSafeRedirect(Some(u))
  {
    var s := RemoveUnsafe(u);
    SlashFirst(u);
    SlashNetloc(u);
    SlashSlashNetloc(s);
    assert UrlParse(u).netloc != "";
  }

  /** For a URL that starts with '/', the network location is read from the text with tabs and line breaks deleted. */
  lemma SlashNetloc(u: string)
    requires u != [] && u[0] == '/'
    ensures UrlParse(u).netloc == NetlocOf(RemoveUnsafe(u))
  {
    assert LStripC0(u) == u;
    SlashFirst(u);
    assert SplitScheme(RemoveUnsafe(u)) == ("", RemoveUnsafe(u));
  }

  /** A "//" followed by a character that does not end it opens a non-empty network location. */
  lemma SlashSlashNetloc(s: string)
    requires |s| >= 3 && s[0] == '/' && s[1] == '/' && s[2] != '/' && s[2] != '?' && s[2] != '#'
    ensures NetlocOf(s) != ""
  {
    assert s[..2] == "//";
    var e := NetlocEnd(s, 2);
    assert e > 2;
    assert NetlocOf(s) == s[2..e];
  }

  /** The site's root is a safe target. */
  lemma RootSafe()
    ensures IsSafeRedirect(Some("/"))
  {
    PlainPathSafe("/");
  }

  /** The password-change page is a safe target. */
  lemma ChangePageSafe()
    ensures IsSafeRedirect(Some("/change-password"))
  {
    PlainPathSafe("/change-password");
  }

  /** A text without tabs or line breaks is kept whole. */
  lemma {:induction false} RemoveUnsafeKeeps(s: string)
    requires forall i :: 0 <= i < |s| ==> !IsUnsafe(s[i])
    ensures RemoveUnsafe(s) == s
    decreases |s|
  {
    if s != [] {
      RemoveUnsafeKeeps(s[..|s| - 1]);
      assert s[..|s| - 1] + [s[|s| - 1]] == s;
    }
  }

  /** What the login page shows as `next`: the given one only when it is safe. */
  function LoginPageNext(next: Option<string>): (r: Option<string>)
    ensures r.Some? ==> IsSafeRedirect(r) && r == next
    ensures IsSafeRedirect(next) ==> r == next
  {
    if IsSafeRedirect(next) then next else None
  }

  /** The answer to a login form. */
  datatype LoginResponse =
    | LoginFailed(status: int, echoedNext: Option<string>)
    | Redirect(url: string)

  /**
   * The login form: unknown credentials give a 401 page that echoes `next`
   * as sent; a user who must change password is sent to the change page;
   * anyone else to `next` when it is safe and to "/" otherwise.
   * `authenticated` is the user's `must_change_password` when the
   * credentials are right.
   */
  function Login(authenticated: Option<int>, next: Option<string>): (r: LoginResponse)
    ensures authenticated.None? <==> r.LoginFailed?
    ensures r.LoginFailed? ==> r.status == 401 && r.echoedNext == next
    ensures r.Redirect? ==> IsSafeRedirect(Some(r.url))
    ensures authenticated == Some(1) ==> r == Redirect("/change-password")
    ensures authenticated.Some? && authenticated != Some(1) ==>
      r == Redirect(if IsSafeRedirect(next) then next.value else "/")
  {
    RootSafe();
    ChangePageSafe();
    if authenticated.None? then LoginFailed(401, next)
    else if authenticated.value == 1 then Redirect("/change-password")
    else Redirect(if IsSafeRedirect(next) then next.value else "/")
  }

  // ---------------------------------------------------------------------
  // `change_password_submit`
  // ---------------------------------------------------------------------

  datatype PasswordError = WrongCurrentPassword | ConfirmationMismatch | SameAsOld | TooShort

  const MinPasswordLength: int := 8

  /**
   * The first check a password change fails, in the order the route
   * tries them: the current password, the confirmation, a new password
   * equal to the old one, and the length.
   */
  function PasswordChangeCheck(stored: string, currentPassword: string, newPassword: string, confirmPassword: string): (r: Option<PasswordError>)
    ensures r == Some(WrongCurrentPassword) <==> currentPassword != stored
    ensures r == Some(ConfirmationMismatch) <==> currentPassword == stored && newPassword != confirmPassword
    ensures r == Some(SameAsOld) <==> currentPassword == stored && newPassword == confirmPassword && newPassword == stored
    ensures r == Some(TooShort) <==> currentPassword == stored && newPassword == confirmPassword && newPassword != stored && |newPassword| < MinPasswordLength
    ensures r.None? <==> currentPassword == stored && newPassword == confirmPassword && newPassword != stored && |newPassword| >= MinPasswordLength
  {
    if currentPassword != stored then Some(WrongCurrentPassword)
    else if newPassword != confirmPassword then Some(ConfirmationMismatch)
    else if newPassword == stored then Some(SameAsOld)
    else if |newPassword| < 8 then Some(TooShort)
    else None
  }

  /**
   * `change_password_submit`: on success the new password replaces the
   * old one and the forced-change flag is cleared; on any error nothing
   * changes.
   */
  method ChangePasswordSubmit(user: User, currentPassword: string, newPassword: string, confirmPassword: string) returns (err: Option<PasswordError>)
    modifies user
    ensures err == PasswordChangeCheck(old(user.password), currentPassword, newPassword, confirmPassword)
    ensures err.None? ==> user.password == newPassword && user.mustChangePassword == 0
    ensures err.Some? ==> user.password == old(user.password) && user.mustChangePassword == old(user.mustChangePassword)
    ensures user.id == old(user.id) && user.vacation == old(user.vacation)
  {
    if currentPassword != user.password {
      return Some(WrongCurrentPassword);
    }
    if newPassword != confirmPassword {
      return Some(ConfirmationMismatch);
    }
    if newPassword == user.password {
      return Some(SameAsOld);
    }
    if |newPassword| < 8 {
      return Some(TooShort);
    }
    user.password := newPassword;
    user.mustChangePassword := 0;
    err := None;
  }

  /** Sending the same successful change again fails: the old password no longer verifies. */
  lemma ChangeNotRepeatable(stored: string, currentPassword: string, newPassword: string, confirmPassword: string)
    requires PasswordChangeCheck(stored, currentPassword, newPassword, confirmPassword).None?
    ensures PasswordChangeCheck(newPassword, currentPassword, newPassword, confirmPassword) == Some(WrongCurrentPassword)
  {
  }
}
