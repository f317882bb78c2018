/**
 * The sign-up page: it signs up with the same ID-based address as the
 * sign-in page, turns the auth service's error messages into fixed
 * Japanese texts, and after signing up logs in and returns the user to the
 * page they came from.
 */
module Register {
  import opened Wrappers
  import opened Login

  /** `sub` occurs in `s` starting at position `k`. */
  predicate OccursAt(s: string, sub: string, k: int) {
    0 <= k && k + |sub| <= |s| && s[k..k + |sub|] == sub
  }

  /** Dropping the first character moves every occurrence one place to the left. */
  lemma OccursShift(s: string, sub: string, k: int)
    requires |s| > 0 && k >= 0
    ensures OccursAt(s[1..], sub, k) <==> OccursAt(s, sub, k + 1)
  {
    if k + |sub| <= |s| - 1 {
      assert s[1..][k..k + |sub|] == s[k + 1..k + 1 + |sub|];
    }
  }

  /** `s.includes(sub)`. */
  function Contains(s: string, sub: string): (r: bool)
    ensures r <==> exists k :: OccursAt(s, sub, k)
    decreases |s|
  {
    if |sub| > |s| then false
    else if s[..|sub|] == sub then
      assert OccursAt(s, sub, 0);
      true
    else
      var r := Contains(s[1..], sub);
      assert r ==> exists k :: OccursAt(s, sub, k) by {
        if r {
          var k :| OccursAt(s[1..], sub, k);
          OccursShift(s, sub, k);
        }
      }
      assert (exists k :: OccursAt(s, sub, k)) ==> r by {
        if exists k :: OccursAt(s, sub, k) {
          var k :| OccursAt(s, sub, k);
          OccursShift(s, sub, k - 1);
        }
      }
      r
  }

  const IdInUse := "そのIDは既に使用されています。"
  const InvalidCharacters := "IDに使用できない文字が含まれている可能性があります。"

  /** The sign-up error messages that mean the ID is taken. */
  predicate MeansAlreadyRegistered(message: string) {
    Contains(message, "User already registered") || Contains(message, "already been registered")
  }

  /** The message shown for a failed sign-up: the first rule that matches wins. */
  function SignUpErrorMessage(message: string): (r: string)
    ensures MeansAlreadyRegistered(message) ==> r == IdInUse
    ensures !MeansAlreadyRegistered(message) && Contains(message, "valid email") ==> r == InvalidCharacters
    ensures !MeansAlreadyRegistered(message) && !Contains(message, "valid email") ==> r == message
  {
    if MeansAlreadyRegistered(message) then IdInUse
    else if Contains(message, "valid email") then InvalidCharacters
    else message
  }

  /**
   * A message containing "already been registered" is reported as a taken
   * ID, even when it also mentions an invalid e-mail address.
   */
  lemma AlreadyRegisteredWins(message: string, k: nat)
    requires OccursAt(message, "already been registered", k)
    ensures SignUpErrorMessage(message) == IdInUse
  {
  }

  /** The service's own duplicate-user message is reported as a taken ID. */
  lemma DuplicateUserMessage()
    ensures SignUpErrorMessage("User already registered") == IdInUse
  {
    assert OccursAt("User already registered", "User already registered", 0);
  }

  /** Where the user was sent from: `location.state.from`. */
  datatype Location = Location(pathname: string, search: Option<string>)

  /** `from`: the path (and query) the user came from, or the root. */
  function RedirectTarget(from: Option<Location>): (r: string)
    ensures from.None? ==> r == "/"
    ensures from.Some? ==> r == from.value.pathname + from.value.search.GetOr("")
  {
    match from
    case None => "/"
    case Some(l) => l.pathname + l.search.GetOr("")
  }

  /** A reply of the auth service: its error message, if any, and whether it holds a session. */
  datatype AuthReply = AuthReply(error: Option<string>, session: bool)

  datatype RegisterResult = Navigate(target: string) | ShowError(message: string)

  /** The message shown when sign-up succeeded but no session could be obtained. */
  function AutoLoginFailed(reason: string): string {
    "登録は完了しましたが、自動ログインに失敗しました ("
      + (if reason == "" then "不明な理由" else reason)
      + ")。Supabaseの「Confirm email」設定がOFFであることを確認してください。"
  }

  /**
   * `handleRegister`: signs up with the ID's address; on success it uses
   * the session sign-up returned or, failing that, signs in explicitly.
   * `signUp` and `signIn` stand for the two replies of the auth service;
   * `signIn` is consulted only when sign-up succeeded without a session.
   */
  function HandleRegister(userId: string, from: Option<Location>, signUp: AuthReply, signIn: AuthReply)
    : (r: (string, RegisterResult))
    ensures r.0 == LoginEmail(userId)
    ensures r.1.Navigate? <==>
      signUp.error.None? && (signUp.session || (signIn.error.None? && signIn.session))
    ensures r.1.Navigate? ==> r.1.target == RedirectTarget(from)
    ensures signUp.error.Some? ==> r.1 == ShowError(SignUpErrorMessage(signUp.error.value))
    ensures signUp.error.None? && !r.1.Navigate? ==> r.1 == ShowError(AutoLoginFailed(signIn.error.GetOr("")))
  {
    var email := LoginEmail(userId);
    if signUp.error.Some? then (email, ShowError(SignUpErrorMessage(signUp.error.value)))
    else if signUp.session then (email, Navigate(RedirectTarget(from)))
    else if signIn.error.None? && signIn.session then (email, Navigate(RedirectTarget(from)))
    else (email, ShowError(AutoLoginFailed(signIn.error.GetOr(""))))
  }

  /** A failed sign-up never leaves the page, whatever a sign-in would have said. */
  lemma SignUpErrorStays(userId: string, from: Option<Location>, signUp: AuthReply, signIn1: AuthReply, signIn2: AuthReply)
    requires signUp.error.Some?
    ensures HandleRegister(userId, from, signUp, signIn1) == HandleRegister(userId, from, signUp, signIn2)
    ensures HandleRegister(userId, from, signUp, signIn1).1.ShowError?
  {
  }
}
