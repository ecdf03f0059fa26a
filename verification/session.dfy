/**
 * The session manager of `src/context/AuthContext.tsx`: two persisted keys in
 * the browser's local storage (`auth_token`, `auth_user`) and two in-memory
 * state fields (`token`, `userInfo`), changed by `login`, `logout` and the
 * mount-time restore.
 */
module Session {
  import opened Wrappers
  import opened KeyValue

  /** The user profile kept beside the token. */
  datatype UserInfo = UserInfo(username: string, avatar: string)

  const TokenKey: string := "auth_token"
  const UserKey: string := "auth_user"

  /* ---------- the JSON text stored under `auth_user` ---------- */

  /** The body of a JSON string literal: `"` and `\` are escaped with a backslash. */
  function EscapeJson(s: string): (r: string)
    ensures |r| >= |s|
  {
    if s == [] then []
    else if s[0] == '"' || s[0] == '\\' then ['\\', s[0]] + EscapeJson(s[1..])
    else [s[0]] + EscapeJson(s[1..])
  }

  /**
   * Reads the body of a JSON string literal up to its closing quote and
   * returns the decoded text and what follows the quote; None when the
   * quote is missing or an escape is not one that EscapeJson writes.
   */
  function ReadJsonString(s: string): Option<(string, string)>
  {
    if s == [] then None
    else if s[0] == '"' then Some(([], s[1..]))
    else if s[0] == '\\' then
      if |s| >= 2 && (s[1] == '"' || s[1] == '\\') then
        match ReadJsonString(s[2..])
        case Some((body, rest)) => Some(([s[1]] + body, rest))
        case None => None
      else None
    else
      match ReadJsonString(s[1..])
      case Some((body, rest)) => Some(([s[0]] + body, rest))
      case None => None
  }

  /** Reading back an escaped text stops exactly at the quote that closes it. */
  lemma {:induction false} ReadEscaped(s: string, rest: string)
    ensures ReadJsonString(EscapeJson(s) + ['"'] + rest) == Some((s, rest))
  {
    if s == [] {
      assert EscapeJson(s) + ['"'] + rest == ['"'] + rest;
    } else {
      var tail := EscapeJson(s[1..]) + ['"'] + rest;
      ReadEscaped(s[1..], rest);
      if s[0] == '"' || s[0] == '\\' {
        var w := ['\\', s[0]] + tail;
        assert EscapeJson(s) + ['"'] + rest == w by {
          assert EscapeJson(s) == ['\\', s[0]] + EscapeJson(s[1..]);
        }
        assert w[0] == '\\' && w[1] == s[0] && w[2..] == tail;
      } else {
        var w := [s[0]] + tail;
        assert EscapeJson(s) + ['"'] + rest == w by {
          assert EscapeJson(s) == [s[0]] + EscapeJson(s[1..]);
        }
        assert w[0] == s[0] && w[1..] == tail;
      }
      assert [s[0]] + s[1..] == s;
    }
  }

  const UserPrefix: string := "{\"username\":\""
  const AvatarInfix: string := "\",\"avatar\":\""

  /** Whatever ReadJsonString accepts is an escaped text followed by its closing quote. */
  lemma {:induction false} ReadJsonStringCanonical(t: string)
    ensures ReadJsonString(t).Some? ==>
      t == EscapeJson(ReadJsonString(t).value.0) + ['"'] + ReadJsonString(t).value.1
  {
    if t != [] && t[0] != '"' && ReadJsonString(t).Some? {
      var k := if t[0] == '\\' then 2 else 1;
      ReadJsonStringCanonical(t[k..]);
      var body := ReadJsonString(t[k..]).value.0;
      var rest := ReadJsonString(t[k..]).value.1;
      assert ReadJsonString(t).value == ([t[k - 1]] + body, rest);
      assert ([t[k - 1]] + body)[1..] == body;
      assert t == t[..k] + (EscapeJson(body) + ['"'] + rest);
    }
  }

  /** A text cut into prefix, escaped name, quote, infix, escaped avatar and `"}` is the serialisation of that profile. */
  lemma SerializedFromPieces(s: string, name: string, rest: string, avatar: string)
    requires |s| >= |UserPrefix| && s[..|UserPrefix|] == UserPrefix
    requires s[|UserPrefix|..] == EscapeJson(name) + ['"'] + rest
    requires |rest| >= |AvatarInfix| - 1 && rest[..|AvatarInfix| - 1] == AvatarInfix[1..]
    requires rest[|AvatarInfix| - 1..] == EscapeJson(avatar) + ['"'] + "}"
    ensures SerializeUser(UserInfo(name, avatar)) == s
  {
    var infix := AvatarInfix[1..];
    var en, ea := EscapeJson(name), EscapeJson(avatar);
    assert rest == infix + (ea + ['"'] + "}") by {
      assert rest == rest[..|infix|] + rest[|infix|..];
    }
    assert s == UserPrefix + (en + ['"'] + rest) by {
      assert s == s[..|UserPrefix|] + s[|UserPrefix|..];
    }
    assert AvatarInfix == ['"'] + infix;
    assert UserPrefix + en + AvatarInfix + ea + "\"}" == UserPrefix + (en + ['"'] + (infix + (ea + ['"'] + "}")));
  }

  /** `JSON.stringify({ username, avatar })`: an object text whose two fields hold the escaped strings. */
  function SerializeUser(u: UserInfo): (r: string)
    ensures |r| > |UserPrefix| && r[..|UserPrefix|] == UserPrefix
    ensures r[|r| - 2..] == "\"}"
  {
    UserPrefix + EscapeJson(u.username) + AvatarInfix + EscapeJson(u.avatar) + "\"}"
  }

  /**
   * `JSON.parse` of a stored profile, on the text SerializeUser writes; None for
   * any other text. A text it accepts is exactly the serialisation of the
   * profile it returns.
   */
  function ParseUser(s: string): (r: Option<UserInfo>)
    ensures r.Some? ==> SerializeUser(r.value) == s
  {
    if |s| < |UserPrefix| || s[..|UserPrefix|] != UserPrefix then None
    else
      match ReadJsonString(s[|UserPrefix|..])
      case None => None
      case Some((name, rest)) =>
        var infix := AvatarInfix[1..];
        if |rest| < |infix| || rest[..|infix|] != infix then None
        else
          match ReadJsonString(rest[|infix|..])
          case None => None
          case Some((avatar, tail)) =>
            if tail == "}" then
              ReadJsonStringCanonical(s[|UserPrefix|..]);
              ReadJsonStringCanonical(rest[|infix|..]);
              SerializedFromPieces(s, name, rest, avatar);
              Some(UserInfo(name, avatar))
            else None
  }

  /** A stored profile reads back as the profile that was stored. */
  lemma ParseSerializedUser(u: UserInfo)
    ensures ParseUser(SerializeUser(u)) == Some(u)
  {
    var infix := AvatarInfix[1..];
    var en, ea := EscapeJson(u.username), EscapeJson(u.avatar);
    var tail := infix + (ea + ['"'] + "}");
    var s := SerializeUser(u);
    assert s == UserPrefix + (en + ['"'] + tail) by {
      assert AvatarInfix == ['"'] + infix;
    }
    assert s[..|UserPrefix|] == UserPrefix;
    assert s[|UserPrefix|..] == en + ['"'] + tail;
    ReadEscaped(u.username, tail);
    assert tail[..|infix|] == infix && tail[|infix|..] == ea + ['"'] + "}";
    ReadEscaped(u.avatar, "}");
  }

  /* ---------- storage and session values ---------- */
  // `localStorage.getItem(key)` is KeyValue.Get.

  /** What the front end assumes of storage: a truthy `auth_user` is a profile `JSON.parse` can read. */
  ghost predicate WellFormedStorage(storage: map<string, string>) {
    Truthy(Get(storage, UserKey)) ==> ParseUser(storage[UserKey]).Some?
  }

  /** The in-memory state: `token` and `userInfo`. */
  datatype SessionState = SessionState(token: Option<string>, userInfo: Option<UserInfo>)

  /** `isAuthenticated = !!token`. */
  predicate IsAuthenticated(s: SessionState) {
    Truthy(s.token)
  }

  /** The profile the `userInfo` initialiser reads: parsed when the stored text is truthy, else null. */
  function StoredUser(storage: map<string, string>): Option<UserInfo>
  {
    if Truthy(Get(storage, UserKey)) then ParseUser(storage[UserKey]) else None
  }

  /** The state the two `useState` initialisers produce; each key is read on its own. */
  function InitialState(storage: map<string, string>): (r: SessionState)
    ensures IsAuthenticated(r) <==> Truthy(Get(storage, TokenKey))
    ensures r.userInfo.Some? ==> Truthy(Get(storage, UserKey))
    ensures WellFormedStorage(storage) && Truthy(Get(storage, UserKey)) ==> r.userInfo.Some?
  {
    SessionState(Get(storage, TokenKey), StoredUser(storage))
  }

  /** The mount effect: when both keys are truthy the state is overwritten from storage; otherwise it is left alone. */
  function Mounted(storage: map<string, string>, s: SessionState): (r: SessionState)
    ensures r != s ==> Truthy(Get(storage, TokenKey)) && Truthy(Get(storage, UserKey))
    ensures Truthy(Get(storage, TokenKey)) && Truthy(Get(storage, UserKey)) ==>
      r.token == Some(storage[TokenKey]) && r.userInfo == ParseUser(storage[UserKey])
  {
    if Truthy(Get(storage, TokenKey)) && Truthy(Get(storage, UserKey))
    then SessionState(Some(storage[TokenKey]), ParseUser(storage[UserKey]))
    else s
  }

  /** The process starting over: the initialisers, then the mount effect. */
  function Restarted(storage: map<string, string>): (r: SessionState)
    ensures r == InitialState(storage)
  {
    Mounted(storage, InitialState(storage))
  }

  /** The storage `login(t, u, a)` leaves behind. */
  function StorageAfterLogin(storage: map<string, string>, t: string, u: UserInfo): (r: map<string, string>)
    ensures TokenKey in r && r[TokenKey] == t
    ensures UserKey in r && r[UserKey] == SerializeUser(u)
    ensures forall k :: k in storage && k != TokenKey && k != UserKey ==> k in r && r[k] == storage[k]
    ensures r.Keys == storage.Keys + {TokenKey, UserKey}
  {
    storage[TokenKey := t][UserKey := SerializeUser(u)]
  }

  /** The storage `logout()` leaves behind. */
  function StorageAfterLogout(storage: map<string, string>): (r: map<string, string>)
    ensures TokenKey !in r && UserKey !in r
    ensures forall k :: k in storage && k != TokenKey && k != UserKey ==> k in r && r[k] == storage[k]
    ensures forall k :: k in r ==> k in storage
  {
    storage - {TokenKey, UserKey}
  }

  /** Login keeps storage well formed: the profile it writes is one `JSON.parse` reads back. */
  lemma LoginKeepsStorageWellFormed(storage: map<string, string>, t: string, u: UserInfo)
    ensures WellFormedStorage(StorageAfterLogin(storage, t, u))
    ensures StoredUser(StorageAfterLogin(storage, t, u)) == Some(u)
  {
    ParseSerializedUser(u);
    assert SerializeUser(u) != "" by {
      assert |SerializeUser(u)| >= |UserPrefix|;
    }
  }

  /** Restart after login: the next process comes up with the token and profile that were logged in. */
  lemma RestartAfterLogin(storage: map<string, string>, t: string, u: UserInfo)
    ensures Restarted(StorageAfterLogin(storage, t, u)) == SessionState(Some(t), Some(u))
    ensures IsAuthenticated(Restarted(StorageAfterLogin(storage, t, u))) <==> t != ""
  {
    LoginKeepsStorageWellFormed(storage, t, u);
  }

  /** Restart after logout: the next process comes up unauthenticated, with no profile. */
  lemma RestartAfterLogout(storage: map<string, string>)
    ensures Restarted(StorageAfterLogout(storage)) == SessionState(None, None)
    ensures !IsAuthenticated(Restarted(StorageAfterLogout(storage)))
  {
  }

  /**
   * The initialisers read the two keys independently: a stored token without a
   * stored profile gives an authenticated state whose profile is null, and the
   * mount effect does not change that.
   */
  lemma TokenWithoutProfile(storage: map<string, string>)
    requires Truthy(Get(storage, TokenKey)) && UserKey !in storage
    ensures IsAuthenticated(Restarted(storage))
    ensures Restarted(storage).userInfo == None
  {
  }

  /* ---------- the provider, as the component's state changes step by step ---------- */

  /** The observable steps of `login` and `logout`, in the order they happen. */
  datatype Effect =
    | SetItem(key: string, value: string)
    | RemoveItem(key: string)
    | SetToken(token: Option<string>)
    | SetUserInfo(userInfo: Option<UserInfo>)

  predicate IsStorageEffect(e: Effect) {
    e.SetItem? || e.RemoveItem?
  }

  /** Every storage write comes before every in-memory state update. */
  predicate StorageBeforeState(es: seq<Effect>) {
    forall i, j :: 0 <= i < |es| && 0 <= j < |es| && IsStorageEffect(es[i]) && !IsStorageEffect(es[j]) ==> i < j
  }

  /** The steps of `login(t, u.username, u.avatar)`: two writes, then the two state updates. */
  function LoginEffects(t: string, u: UserInfo): (es: seq<Effect>)
    ensures StorageBeforeState(es)
    ensures SetItem(TokenKey, t) in es && SetItem(UserKey, SerializeUser(u)) in es
    ensures SetToken(Some(t)) in es && SetUserInfo(Some(u)) in es
  {
    [SetItem(TokenKey, t), SetItem(UserKey, SerializeUser(u)), SetToken(Some(t)), SetUserInfo(Some(u))]
  }

  /** The steps of `logout()`: two removals, then the two state updates. */
  function LogoutEffects(): (es: seq<Effect>)
    ensures StorageBeforeState(es)
    ensures RemoveItem(TokenKey) in es && RemoveItem(UserKey) in es
    ensures SetToken(None) in es && SetUserInfo(None) in es
  {
    [RemoveItem(TokenKey), RemoveItem(UserKey), SetToken(None), SetUserInfo(None)]
  }

  /** The `AuthProvider` component: local storage and its two state fields. */
  class AuthProvider {
    var storage: map<string, string>
    var token: Option<string>
    var userInfo: Option<UserInfo>
    /** The steps `login` and `logout` have taken so far. */
    var effects: seq<Effect>

    ghost predicate Valid()
      reads this
    {
      WellFormedStorage(storage)
    }

    function State(): SessionState
      reads this
    {
      SessionState(token, userInfo)
    }

    function IsAuthenticatedNow(): (r: bool)
      reads this
      ensures r <==> token.Some? && token.value != ""
    {
      IsAuthenticated(State())
    }

    /** The component's first render: both state fields come from their `useState` initialisers. */
    constructor (stored: map<string, string>)
      requires WellFormedStorage(stored)
      ensures Valid()
      ensures storage == stored && effects == []
      ensures State() == InitialState(stored)
    {
      storage := stored;
      token := Get(stored, TokenKey);
      var storedUser := Get(stored, UserKey);
      userInfo := if Truthy(storedUser) then ParseUser(storedUser.value) else None;
      effects := [];
    }

    /** The mount effect: copy token and profile from storage only when both are truthy. */
    method OnMount()
      requires Valid()
      modifies this`token, this`userInfo
      ensures Valid()
      ensures State() == Mounted(storage, old(State()))
    {
      var storedToken := Get(storage, TokenKey);
      var storedUser := Get(storage, UserKey);
      if Truthy(storedToken) && Truthy(storedUser) {
        token := storedToken;
        userInfo := ParseUser(storedUser.value);
      }
    }

    /** `login`: write both keys, then update both state fields. */
    method Login(newToken: string, newUsername: string, newAvatar: string)
      requires Valid()
      modifies this
      ensures Valid()
      ensures storage == StorageAfterLogin(old(storage), newToken, UserInfo(newUsername, newAvatar))
      ensures State() == SessionState(Some(newToken), Some(UserInfo(newUsername, newAvatar)))
      ensures effects == old(effects) + LoginEffects(newToken, UserInfo(newUsername, newAvatar))
    {
      var newUserInfo := UserInfo(newUsername, newAvatar);
      LoginKeepsStorageWellFormed(storage, newToken, newUserInfo);
      storage := storage[TokenKey := newToken];
      effects := effects + [SetItem(TokenKey, newToken)];
      storage := storage[UserKey := SerializeUser(newUserInfo)];
      effects := effects + [SetItem(UserKey, SerializeUser(newUserInfo))];
      token := Some(newToken);
      effects := effects + [SetToken(Some(newToken))];
      userInfo := Some(newUserInfo);
      effects := effects + [SetUserInfo(Some(newUserInfo))];
    }

    /** `logout`: remove both keys, then clear both state fields; the user is no longer authenticated. */
    method Logout()
      requires Valid()
      modifies this
      ensures Valid()
      ensures storage == StorageAfterLogout(old(storage))
      ensures State() == SessionState(None, None) && !IsAuthenticated(State())
      ensures effects == old(effects) + LogoutEffects()
    {
      storage := storage - {TokenKey};
      effects := effects + [RemoveItem(TokenKey)];
      storage := storage - {UserKey};
      effects := effects + [RemoveItem(UserKey)];
      token := None;
      effects := effects + [SetToken(None)];
      userInfo := None;
      effects := effects + [SetUserInfo(None)];
    }
  }

  /** Logging out twice leaves storage and state as logging out once does. */
  method LogoutTwice(p: AuthProvider)
    requires p.Valid()
    modifies p
    ensures p.storage == StorageAfterLogout(old(p.storage))
    ensures p.State() == SessionState(None, None)
  {
    p.Logout();
    p.Logout();
    assert StorageAfterLogout(StorageAfterLogout(old(p.storage))) == StorageAfterLogout(old(p.storage));
  }

  /** Login, then a new process over the same storage: the session comes back as it was logged in. */
  method LoginThenRestart(p: AuthProvider, t: string, username: string, avatar: string) returns (q: AuthProvider)
    requires p.Valid()
    modifies p
    ensures q.State() == SessionState(Some(t), Some(UserInfo(username, avatar)))
  {
    p.Login(t, username, avatar);
    q := new AuthProvider(p.storage);
    q.OnMount();
    RestartAfterLogin(old(p.storage), t, UserInfo(username, avatar));
  }
}
