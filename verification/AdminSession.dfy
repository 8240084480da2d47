/** The two admin front-ends' sessions: a token and an email kept in the
    browser's storage, restored on mount only when both are there, written
    by a successful login and removed by logout. */
module AdminSession {
  import opened Wrappers
  import opened Text
  import ExpressAdmin
  import MessageFile
  import TokenServer

  const LoginFailed := "Login failed"
  const SessionExpired := "Session expired - please login again"
  const FetchFailed := "Failed to fetch"

  /** The `adminToken` and `adminEmail` entries. */
  datatype Storage = Storage(token: Option<string>, email: Option<string>)

  const Empty := Storage(None, None)

  /** What the login request did: a 200 with the token and email, an error
      answer with its optional `error` text, or a thrown error. */
  datatype LoginResponse =
    | LoggedIn(token: string, email: string)
    | Refused(error: Option<string>)
    | LoginThrown(message: string)

  /** The session is restored only when both entries are non-empty. */
  predicate Restorable(st: Storage) {
    Truthy(st.token) && Truthy(st.email)
  }

  /** The text a failed login shows. */
  function LoginError(r: LoginResponse): (e: string)
    requires !r.LoggedIn?
    ensures r.Refused? ==> e == EnvOr(r.error, LoginFailed)
    ensures r.LoginThrown? ==> e == r.message
  {
    match r
    case Refused(error) => EnvOr(error, LoginFailed)
    case LoginThrown(m) => m
  }

  // ---------------------------------------------------------------------
  // The dashboard front-end (src/components/admin/Admin.jsx)

  /** The dashboard's state, and whether the last step dispatched
      `adminAuthChanged`. */
  datatype Panel = Panel(loggedIn: bool, adminEmail: string, loginError: Option<string>, storage: Storage)

  datatype Step = Step(panel: Panel, announced: bool)

  /** Mount: the email field starts from the stored email, and the user is
      logged in only when both entries are stored. */
  function Mount(st: Storage): (p: Panel)
    ensures p.loggedIn <==> Restorable(st)
    ensures p.loggedIn ==> p.adminEmail == st.email.value
    ensures p.adminEmail == EnvOr(st.email, "")
    ensures p.storage == st && p.loginError.None?
  {
    Panel(Restorable(st), EnvOr(st.email, ""), None, st)
  }

  /** `handleLogin`: success stores both entries, logs in and announces
      it; failure shows the error and changes nothing else. */
  function Login(p: Panel, r: LoginResponse): (s: Step)
    ensures r.LoggedIn? ==>
      s == Step(Panel(true, r.email, None, Storage(Some(r.token), Some(r.email))), true)
    ensures !r.LoggedIn? ==>
      s == Step(p.(loginError := Some(LoginError(r))), false)
  {
    match r
    case LoggedIn(token, email) => Step(Panel(true, email, None, Storage(Some(token), Some(email))), true)
    case _ => Step(p.(loginError := Some(LoginError(r))), false)
  }

  /** `handleLogout`: both entries removed, logged out, announced. */
  function Logout(p: Panel): (s: Step)
    ensures !s.panel.loggedIn && s.panel.adminEmail == "" && s.panel.storage == Empty && s.announced
    ensures s.panel.loginError == p.loginError
  {
    Step(p.(loggedIn := false, adminEmail := "", storage := Empty), true)
  }

  /** A login with a non-empty token and email survives a reload. */
  lemma {:induction false} LoginSurvivesReload(p: Panel, token: string, email: string)
    requires token != "" && email != ""
    ensures var after := Login(p, LoggedIn(token, email)).panel;
      Mount(after.storage) == after
  {
  }

  /** After logout a reload stays logged out. */
  lemma {:induction false} LogoutSurvivesReload(p: Panel)
    ensures !Mount(Logout(p).panel.storage).loggedIn
  {
  }

  /** A failed login leaves the stored session as it was. */
  lemma {:induction false} FailedLoginKeepsStorage(p: Panel, r: LoginResponse)
    requires !r.LoggedIn?
    ensures Login(p, r).panel.storage == p.storage && Login(p, r).panel.loggedIn == p.loggedIn
  {
  }

  // ---------------------------------------------------------------------
  // The messages front-end (src/components/Admin.jsx)

  /** What loading the messages did: an answer with its status and, for an
      ok one, the list; or a thrown error. */
  datatype Load<M> = Answer(status: int, messages: seq<M>) | LoadThrown(message: string)

  /** The messages front-end's state. `messages` is None before the first
      load and after logout. */
  datatype Console<M> = Console(
    loggedIn: bool,
    token: string,
    adminEmail: string,
    messages: Option<seq<M>>,
    error: Option<string>,
    loginError: Option<string>,
    storage: Storage)

  /** The `x-admin-token` header: sent only for a non-empty token. */
  function MessagesHeader(token: string): (h: Option<string>)
    ensures h.Some? <==> token != ""
    ensures h.Some? ==> h.value == token
  {
    if token != "" then Some(token) else None
  }

  /** `handleLogout`: logged out, token, email and messages dropped, both
      entries removed. */
  function SignOut<M>(c: Console<M>): (r: Console<M>)
    ensures !r.loggedIn && r.token == "" && r.adminEmail == "" && r.messages.None? && r.storage == Empty
    ensures r.error == c.error && r.loginError == c.loginError
  {
    c.(loggedIn := false, token := "", adminEmail := "", messages := None, storage := Empty)
  }

  /** `loadMessages`: a 401 signs out and reports an expired session; any
      other non-2xx answer, or a thrown error, reports its error; in every
      failure the list becomes empty. A 2xx answer shows its list. */
  function LoadMessages<M>(c: Console<M>, load: Load<M>): (r: Console<M>)
    ensures load.Answer? && load.status == 401 ==>
      r == SignOut(c).(error := Some(SessionExpired), messages := Some([]))
    ensures load.Answer? && load.status != 401 && !(200 <= load.status < 300) ==>
      r == c.(error := Some(FetchFailed), messages := Some([]))
    ensures load.Answer? && 200 <= load.status < 300 ==>
      r == c.(error := None, messages := Some(load.messages))
    ensures load.LoadThrown? ==> r == c.(error := Some(load.message), messages := Some([]))
    ensures r.storage != c.storage ==> r.storage == Empty && !r.loggedIn
  {
    match load
    case Answer(status, ms) =>
      if status == 401 then SignOut(c).(error := Some(SessionExpired), messages := Some([]))
      else if !(200 <= status < 300) then c.(error := Some(FetchFailed), messages := Some([]))
      else c.(error := None, messages := Some(ms))
    case LoadThrown(m) => c.(error := Some(m), messages := Some([]))
  }

  /** The state before the mount effect: token and email start from the
      stored entries (empty when absent). */
  function Initial<M>(st: Storage): (c: Console<M>)
    ensures c.token == EnvOr(st.token, "") && c.adminEmail == EnvOr(st.email, "")
    ensures !c.loggedIn && c.messages.None? && c.storage == st
  {
    Console(false, EnvOr(st.token, ""), EnvOr(st.email, ""), None, None, None, st)
  }

  /** Mount: with both entries stored the session is restored and the
      messages are loaded with the stored token; otherwise nothing is
      loaded and the user stays logged out. */
  function MountConsole<M>(st: Storage, load: Load<M>): (r: (Console<M>, Option<Option<string>>))
    ensures !Restorable(st) ==> r.1.None? && r.0 == Initial(st)
    ensures Restorable(st) ==>
      && r.1 == Some(MessagesHeader(st.token.value))
      && r.0 == LoadMessages(Initial(st).(loggedIn := true), load)
  {
    if !Restorable(st) then (Initial(st), None)
    else
      var c := Initial(st).(loggedIn := true, token := st.token.value, adminEmail := st.email.value);
      (LoadMessages(c, load), Some(MessagesHeader(st.token.value)))
  }

  /** `handleLogin`: success stores both entries, logs in and loads the
      messages with the new token; failure shows the error. */
  function LoginConsole<M>(c: Console<M>, r: LoginResponse, load: Load<M>): (s: Console<M>)
    ensures r.LoggedIn? ==>
      s == LoadMessages(c.(loggedIn := true, token := r.token, adminEmail := r.email,
                           storage := Storage(Some(r.token), Some(r.email)), loginError := None), load)
    ensures !r.LoggedIn? ==> s == c.(loginError := Some(LoginError(r)))
  {
    match r
    case LoggedIn(token, email) =>
      LoadMessages(c.(loggedIn := true, token := token, adminEmail := email,
                      storage := Storage(Some(token), Some(email)), loginError := None), load)
    case _ => c.(loginError := Some(LoginError(r)))
  }

  /** A restored session whose token the server refuses ends logged out with
      both entries removed, so the next mount does not restore it again. */
  lemma {:induction false} RefusedRestoreForgetsSession<M>(st: Storage, ms: seq<M>)
    requires Restorable(st)
    ensures var c := MountConsole(st, Answer(401, ms)).0;
      && !c.loggedIn && c.storage == Empty && c.error == Some(SessionExpired)
      && MountConsole(c.storage, Answer(200, ms)).1.None?
  {
  }

  /** Against the exact-token message server, a restored session whose
      stored token is not the server's token is refused with 401 and ends
      logged out with nothing stored. */
  lemma {:induction false} StaleTokenEndsSession(st: Storage, f: MessageFile.DataFile, tokenVar: Option<string>)
    requires Restorable(st) && st.token.value != TokenServer.AdminToken(tokenVar)
    ensures var reply := TokenServer.ListMessages(f, ExpressAdmin.Request(MessagesHeader(st.token.value), None), tokenVar);
      && reply.Failure? && reply.status == 401
      && var c := MountConsole<MessageFile.Message>(st, Answer(reply.status, [])).0;
      && !c.loggedIn && c.storage == Empty
  {
  }
}
