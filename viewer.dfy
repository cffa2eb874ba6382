/**
 * The credential handling of `SchoolMemoryViewer` in js/app.js: the single
 * saved-credentials slot `school-memory-auth` with its 24-hour expiry, the
 * check made at start-up, and the sign-in with a secret code.
 */
module Viewer {
  import opened Wrappers
  import opened Secret
  import opened Platform
  import opened Api
  import Client

  /** `24 * 60 * 60 * 1000`: how long saved credentials stay usable, in milliseconds. */
  const Day: int := 24 * 60 * 60 * 1000

  /**
   * What `JSON.parse` makes of the slot's text: the saved object (its
   * `timestamp` is `None` when missing), or `Garbled` when
   * parsing throws.
   */
  datatype Saved =
    | Credentials(username: string, repo: string, token: string, timestamp: Option<int>)
    | Garbled

  /** The object `authenticate` saves after a successful sign-in at time `now`. */
  function Stored(c: Coordinates, now: int): Saved
  {
    Credentials(c.username, c.repo, c.token, Some(now))
  }

  /** Saved credentials are fresh while a truthy timestamp is less than a day old; exactly one day is expired. */
  predicate Fresh(timestamp: Option<int>, now: int)
  {
    timestamp.Some? && timestamp.value != 0 && now - timestamp.value < Day
  }

  /**
   * The decision `checkAuthentication` takes: the coordinates to start the
   * app with, or `None` to show the sign-in screen (no slot, text that does
   * not parse, or credentials that are not fresh).
   */
  function Resume(slot: Option<Saved>, now: int): (resumed: Option<Coordinates>)
    ensures resumed.Some? <==> slot.Some? && slot.value.Credentials? && Fresh(slot.value.timestamp, now)
    ensures resumed.Some? ==>
      resumed.value == Coordinates(slot.value.username, slot.value.repo, slot.value.token)
  {
    match slot
    case None => None
    case Some(Garbled) => None
    case Some(Credentials(u, r, t, ts)) => if Fresh(ts, now) then Some(Coordinates(u, r, t)) else None
  }

  /**
   * Store then load: credentials saved at `t` are handed back unchanged at
   * `t'` exactly when `t` is truthy and less than a day has passed.
   */
  lemma StoreThenResume(c: Coordinates, t: int, t': int)
    ensures Resume(Some(Stored(c, t)), t') == (if t != 0 && t' - t < Day then Some(c) else None)
  {
  }

  /** Expiry is final: credentials that are stale at one time are stale at every later time. */
  lemma ExpiryIsFinal(slot: Option<Saved>, now: int, later: int)
    requires now <= later
    requires Resume(slot, now).None?
    ensures Resume(slot, later).None?
  {
  }

  /** Which screen is showing; `Initial` is whatever the page starts with. */
  datatype Screen = Initial | AuthScreen | LoadingScreen | MainScreen

  /** How a sign-in attempt ends. */
  datatype SignIn =
    | EmptySecret    // the "enter a secret" alert; nothing else happens
    | Refused        // the "authentication failed" alert and the sign-in screen
    | Accepted       // the main screen, with the credentials saved

  class SchoolMemoryViewer {
    const api: Client.GitHubApi
    var isAuthenticated: bool
    var screen: Screen
    /** The `school-memory-auth` slot of `localStorage`. */
    var savedAuth: Option<Saved>

    /**
     * A viewer started at time `now` in a browser whose slot holds `saved`:
     * the constructor's `init()` runs the start-up check of saved credentials.
     */
    constructor(saved: Option<Saved>, now: int, h: Host)
      ensures fresh(api) && api.baseUrl == BaseUrl
      ensures savedAuth == saved
      ensures Resume(saved, now).None? ==>
        screen == AuthScreen && !isAuthenticated
        && api.username == None && api.repo == None && api.token == None
      ensures Resume(saved, now).Some? ==>
        var c := Resume(saved, now).value;
        && api.username == Some(c.username) && api.repo == Some(c.repo) && api.token == Some(c.token)
        && (RepoInfo(h, api.Current()).Some? ==> isAuthenticated && screen == MainScreen)
        && (RepoInfo(h, api.Current()).None? ==> !isAuthenticated && screen == Initial)
    {
      api := new Client.GitHubApi();
      isAuthenticated := false;
      screen := Initial;
      savedAuth := saved;
      new;
      CheckAuthentication(now, h);
    }

    /**
     * `initializeApp`: configures the client and, when the repository can be
     * read, marks the viewer authenticated and shows the main screen;
     * `false` stands for the error it rethrows.
     */
    method InitializeApp(c: Coordinates, h: Host) returns (ok: bool)
      modifies this, api
      ensures api.username == Some(c.username) && api.repo == Some(c.repo) && api.token == Some(c.token)
      ensures ok == RepoInfo(h, api.Current()).Some?
      ensures ok ==> isAuthenticated && screen == MainScreen
      ensures !ok ==> isAuthenticated == old(isAuthenticated) && screen == old(screen)
      ensures savedAuth == old(savedAuth)
    {
      var info := api.Init(c.username, c.repo, c.token, h);
      if info.None? {
        return false;
      }
      isAuthenticated := true;
      screen := MainScreen;
      ok := true;
    }

    /**
     * `checkAuthentication` at time `now`: fresh saved credentials start the
     * app (an error there is not caught, so the screen is left as it was);
     * otherwise the sign-in screen is shown.
     */
    method CheckAuthentication(now: int, h: Host)
      modifies this, api
      ensures savedAuth == old(savedAuth)
      ensures Resume(savedAuth, now).None? ==>
        screen == AuthScreen && isAuthenticated == old(isAuthenticated)
        && unchanged(api)
      ensures Resume(savedAuth, now).Some? ==>
        var c := Resume(savedAuth, now).value;
        && api.username == Some(c.username) && api.repo == Some(c.repo) && api.token == Some(c.token)
        && (RepoInfo(h, api.Current()).Some? ==> isAuthenticated && screen == MainScreen)
        && (RepoInfo(h, api.Current()).None? ==> isAuthenticated == old(isAuthenticated) && screen == old(screen))
    {
      match Resume(savedAuth, now)
      case Some(c) =>
        var _ := InitializeApp(c, h);
      case None =>
        screen := AuthScreen;
    }

    /**
     * `authenticate` with the typed secret; `now` is the clock when the
     * sign-in completes. Only a successful sign-in overwrites the slot.
     */
    method Authenticate(secret: string, now: int, h: Host) returns (outcome: SignIn)
      modifies this, api
      ensures secret == "" ==> outcome == EmptySecret && unchanged(this) && unchanged(api)
      ensures secret != "" && ParseSecretCode(secret).None? ==>
        outcome == Refused && screen == AuthScreen && savedAuth == old(savedAuth)
        && isAuthenticated == old(isAuthenticated) && unchanged(api)
      ensures secret != "" && ParseSecretCode(secret).Some? ==>
        var c := ParseSecretCode(secret).value;
        && api.username == Some(c.username) && api.repo == Some(c.repo) && api.token == Some(c.token)
        && (outcome == Accepted <==> RepoInfo(h, api.Current()).Some?)
        && (outcome == Accepted ==> isAuthenticated && screen == MainScreen && savedAuth == Some(Stored(c, now)))
        && (outcome != Accepted ==>
              outcome == Refused && screen == AuthScreen && savedAuth == old(savedAuth)
              && isAuthenticated == old(isAuthenticated))
    {
      if secret == "" {
        return EmptySecret;
      }
      screen := LoadingScreen;
      match ParseSecretCode(secret)
      case None =>
        screen := AuthScreen;
        outcome := Refused;
      case Some(c) =>
        var ok := InitializeApp(c, h);
        if ok {
          savedAuth := Some(Stored(c, now));
          outcome := Accepted;
        } else {
          screen := AuthScreen;
          outcome := Refused;
        }
    }
  }
}
