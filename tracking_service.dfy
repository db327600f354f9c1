/**
 * The lesson-tracking client of src/services/TrackingService.js: the per-tab
 * id kept in sessionStorage (`getTabId`), the tab-id choice and error policy
 * of the four tracking calls, their request bodies, and the request
 * interceptor that adds the Bearer token.
 *
 * The clock and the random generator behind a fresh tab id are parameters
 * (`now`, `suffix`); the HTTP exchange is a parameter too, the `Response` the
 * server gave (or the failure the transport raised).
 */
module TrackingService {
  import opened Wrappers
  import opened Text

  /** The sessionStorage key under which the tab id lives. */
  const TabIdKey: string := "educonnect_tab_id"

  const EnterPath: string := "/tracking/lesson/enter"
  const ExitPath: string := "/tracking/lesson/exit"
  const FocusPath: string := "/tracking/lesson/focus"

  /** The browser's sessionStorage: one string per key, updated in place. */
  class SessionStorage {
    var items: map<string, string>

    constructor (items: map<string, string>)
      ensures this.items == items
    {
      this.items := items;
    }

    /** `getItem`: the stored string, or None (JavaScript `null`) for a missing key. */
    function GetItem(key: string): (r: Option<string>)
      reads this
      ensures r.Some? <==> key in items
      ensures r.Some? ==> r.value == items[key]
    {
      if key in items then Some(items[key]) else None
    }

    /** `setItem`: the key now holds the value; every other key is unchanged. */
    method SetItem(key: string, value: string)
      modifies this
      ensures items == old(items)[key := value]
    {
      items := items[key := value];
    }
  }

  /** The characters `Number.prototype.toString(36)` writes for a fraction: digits and lower-case letters. */
  predicate IsBase36Suffix(suffix: string)
  {
    |suffix| <= 9 && forall k :: 0 <= k < |suffix| ==> IsDigit(suffix[k]) || 'a' <= suffix[k] <= 'z'
  }

  /**
   * A fresh tab id: `tab_`, the clock reading `Date.now()` in decimal, `_`,
   * and the random suffix (at most nine base-36 characters of `Math.random()`).
   */
  function NewTabId(now: nat, suffix: string): (id: string)
    ensures StartsWith(id, "tab_")
  {
    "tab_" + Decimal(now) + "_" + suffix
  }

  /**
   * The specification of `getTabId` over the storage contents: a non-empty
   * stored id is returned and nothing is written; otherwise the `generated`
   * id is stored and returned. The pair is (returned id, new contents).
   */
  function TabIdLookup(items: map<string, string>, generated: string): (map<string, string>, string)
  {
    if TabIdKey in items && items[TabIdKey] != "" then (items, items[TabIdKey])
    else (items[TabIdKey := generated], generated)
  }

  /**
   * `getTabId`: reads the tab id from sessionStorage and, when it is missing
   * or empty, generates one from the clock and the random suffix, stores it,
   * and returns it.
   */
  method GetTabId(store: SessionStorage, now: nat, suffix: string) returns (tabId: string)
    modifies store
    ensures (store.items, tabId) == TabIdLookup(old(store.items), NewTabId(now, suffix))
  {
    var stored := store.GetItem(TabIdKey);
    if stored.Some? && stored.value != "" {
      tabId := stored.value;
    } else {
      tabId := NewTabId(now, suffix);
      store.SetItem(TabIdKey, tabId);
    }
  }

  /** A stored, non-empty tab id is returned and the storage is left alone. */
  lemma StoredTabIdReturned(items: map<string, string>, generated: string)
    requires TabIdKey in items && items[TabIdKey] != ""
    ensures TabIdLookup(items, generated) == (items, items[TabIdKey])
  {
  }

  /**
   * Without a usable stored id the generated one is stored under the tab-id
   * key, every other key keeps its value, and the generated id is returned.
   */
  lemma GeneratedTabIdStored(items: map<string, string>, generated: string)
    requires TabIdKey !in items || items[TabIdKey] == ""
    ensures var (after, id) := TabIdLookup(items, generated);
      id == generated && TabIdKey in after && after[TabIdKey] == generated &&
      forall k :: k != TabIdKey ==> (k in after <==> k in items) && (k in items ==> after[k] == items[k])
  {
  }

  /**
   * A second lookup in the same tab returns the id of the first, whatever it
   * would have generated, and writes nothing: the tab keeps one id.
   */
  lemma TabIdStable(items: map<string, string>, generated: string, later: string)
    requires generated != ""
    ensures var (after, id) := TabIdLookup(items, generated);
      TabIdLookup(after, later) == (after, id)
  {
  }

  /**
   * The parts of a fresh tab id: split at `_` it gives back `tab`, the clock
   * reading (which `parseInt`-style decimal reading recovers) and the suffix.
   */
  lemma {:induction false} NewTabIdParts(now: nat, suffix: string)
    requires IsBase36Suffix(suffix)
    ensures Split(NewTabId(now, suffix), '_') == ["tab", Decimal(now), suffix]
    ensures DigitsValue(Decimal(now)) == now
  {
    var d := Decimal(now);
    assert forall k :: 0 <= k < |d| ==> IsDigit(d[k]);
    assert '_' !in d;
    assert '_' !in suffix by {
      forall k | 0 <= k < |suffix| ensures suffix[k] != '_' {
        assert IsDigit(suffix[k]) || 'a' <= suffix[k] <= 'z';
      }
    }
    assert NewTabId(now, suffix) == "tab" + ['_'] + d + ['_'] + suffix;
    SplitThreePieces("tab", d, suffix, '_');
    DecimalValue(now);
  }

  /** A request body: `enter` carries the lesson, `exit` and `focus` only who and where. */
  datatype Body =
    | EnterBody(userId: string, lessonId: string, serieId: string, lessonTitle: string, tabId: string)
    | PresenceBody(userId: string, tabId: string)

  datatype Request = Post(path: string, body: Body) | Get(path: string)

  /** What the transport gave back: the response data, or the error it raised. */
  datatype Response<T> = Success(data: T) | Failure(error: string)

  /**
   * One write call: the request sent, the sessionStorage contents after it,
   * and the value returned (None is JavaScript `null`).
   */
  datatype Call<T> = Call(request: Request, items: map<string, string>, result: Option<T>)

  /**
   * `tab_id || getTabId()`: the caller's tab id when it is non-empty (the
   * storage is not consulted), otherwise the one `getTabId` gives.
   * The pair is (new storage contents, chosen id).
   */
  function ChooseTabId(tabId: string, items: map<string, string>, generated: string): (r: (map<string, string>, string))
    ensures tabId != "" ==> r == (items, tabId)
    ensures tabId == "" ==> r == TabIdLookup(items, generated)
  {
    if tabId != "" then (items, tabId) else TabIdLookup(items, generated)
  }

  /** The catch clause of the write calls: a failure becomes `null`, never an exception. */
  function Swallow<T>(response: Response<T>): (r: Option<T>)
    ensures r.Some? <==> response.Success?
    ensures response.Success? ==> r.value == response.data
  {
    match response
    case Success(data) => Some(data)
    case Failure(_) => None
  }

  /** `enterLesson`: posts the lesson and the chosen tab id to the enter endpoint. */
  function EnterLesson<T>(userId: string, lessonId: string, serieId: string, lessonTitle: string, tabId: string,
                          items: map<string, string>, generated: string, response: Response<T>): (c: Call<T>)
    ensures c.request.Post? && c.request == Post(EnterPath, EnterBody(userId, lessonId, serieId, lessonTitle, c.request.body.tabId))
    ensures (c.items, c.request.body.tabId) == ChooseTabId(tabId, items, generated)
    ensures c.result == Swallow(response)
  {
    var (after, finalTabId) := ChooseTabId(tabId, items, generated);
    Call(Post(EnterPath, EnterBody(userId, lessonId, serieId, lessonTitle, finalTabId)), after, Swallow(response))
  }

  /** `exitLesson`: posts exactly the user and the chosen tab id to the exit endpoint. */
  function ExitLesson<T>(userId: string, tabId: string, items: map<string, string>, generated: string,
                         response: Response<T>): (c: Call<T>)
    ensures c.request.Post? && c.request == Post(ExitPath, PresenceBody(userId, c.request.body.tabId))
    ensures (c.items, c.request.body.tabId) == ChooseTabId(tabId, items, generated)
    ensures c.result == Swallow(response)
  {
    var (after, finalTabId) := ChooseTabId(tabId, items, generated);
    Call(Post(ExitPath, PresenceBody(userId, finalTabId)), after, Swallow(response))
  }

  /** `updateFocus`: posts exactly the user and the chosen tab id to the focus endpoint. */
  function UpdateFocus<T>(userId: string, tabId: string, items: map<string, string>, generated: string,
                          response: Response<T>): (c: Call<T>)
    ensures c.request.Post? && c.request == Post(FocusPath, PresenceBody(userId, c.request.body.tabId))
    ensures (c.items, c.request.body.tabId) == ChooseTabId(tabId, items, generated)
    ensures c.result == Swallow(response)
  {
    var (after, finalTabId) := ChooseTabId(tabId, items, generated);
    Call(Post(FocusPath, PresenceBody(userId, finalTabId)), after, Swallow(response))
  }

  function CurrentLessonPath(userId: string): string
  {
    "/tracking/user/" + userId + "/current"
  }

  /**
   * `getCurrentLesson`: a GET of the user's current-lesson resource; the data
   * on success, and the transport's error raised again (as `Err`) on failure.
   * It uses no tab id and no storage.
   */
  function GetCurrentLesson<T>(userId: string, response: Response<T>): (r: (Request, Result<T, string>))
    ensures r.0 == Get(CurrentLessonPath(userId))
    ensures response.Success? ==> r.1 == Ok(response.data)
    ensures response.Failure? ==> r.1 == Err(response.error)
  {
    match response
    case Success(data) => (Get(CurrentLessonPath(userId)), Ok(data))
    case Failure(error) => (Get(CurrentLessonPath(userId)), Err(error))
  }

  /**
   * A non-empty caller tab id goes into the body of every write call as it
   * is, and the storage is not touched.
   */
  lemma CallerTabIdUsed<T>(userId: string, lessonId: string, serieId: string, lessonTitle: string, tabId: string,
                           items: map<string, string>, generated: string, response: Response<T>)
    requires tabId != ""
    ensures var c := EnterLesson(userId, lessonId, serieId, lessonTitle, tabId, items, generated, response);
      c.request.body.tabId == tabId && c.items == items
    ensures var c := ExitLesson(userId, tabId, items, generated, response);
      c.request.body.tabId == tabId && c.items == items
    ensures var c := UpdateFocus(userId, tabId, items, generated, response);
      c.request.body.tabId == tabId && c.items == items
  {
  }

  /**
   * Calls from one tab without a caller tab id all carry the same id: the one
   * the first call stored, whatever later calls would have generated.
   */
  lemma SameTabSameId<T>(userId: string, lessonId: string, serieId: string, lessonTitle: string,
                         items: map<string, string>, g1: string, g2: string, g3: string,
                         r1: Response<T>, r2: Response<T>, r3: Response<T>)
    requires g1 != ""
    ensures var enter := EnterLesson(userId, lessonId, serieId, lessonTitle, "", items, g1, r1);
      var focus := UpdateFocus(userId, "", enter.items, g2, r2);
      var exit := ExitLesson(userId, "", focus.items, g3, r3);
      focus.request.body.tabId == enter.request.body.tabId &&
      exit.request.body.tabId == enter.request.body.tabId &&
      exit.items == enter.items
  {
    var enter := EnterLesson(userId, lessonId, serieId, lessonTitle, "", items, g1, r1);
    TabIdStable(items, g1, g2);
    TabIdStable(items, g1, g3);
    assert (enter.items, enter.request.body.tabId) == TabIdLookup(items, g1);
  }

  /** `exitLesson` and `updateFocus` send the same body and differ only in the endpoint. */
  lemma ExitAndFocusSameBody<T>(userId: string, tabId: string, items: map<string, string>, generated: string,
                                response: Response<T>)
    ensures var exit := ExitLesson(userId, tabId, items, generated, response);
      var focus := UpdateFocus(userId, tabId, items, generated, response);
      exit.request.body == focus.request.body && exit.items == focus.items &&
      exit.request.path != focus.request.path
  {
    assert ExitPath[17] != FocusPath[17];
  }

  /** The request configuration the interceptor sees: the URL and the headers. */
  datatype Config = Config(url: string, headers: map<string, string>)

  /** What `fetchAuthSession` gave: a session with or without an id token, or an exception. */
  datatype Session = Session(idToken: Option<string>) | NoSession

  predicate HasToken(session: Session)
  {
    session.Session? && session.idToken.Some?
  }

  /**
   * The request interceptor: with an id token the `Authorization` header is
   * `Bearer <token>`; without a token, or when the session lookup throws, the
   * configuration goes on unchanged.
   */
  function Intercept(config: Config, session: Session): (r: Config)
    ensures r.url == config.url
    ensures HasToken(session) ==> "Authorization" in r.headers && r.headers["Authorization"] == "Bearer " + session.idToken.value
    ensures !HasToken(session) ==> r == config
    ensures forall h :: h != "Authorization" ==> (h in r.headers <==> h in config.headers)
    ensures forall h :: h != "Authorization" && h in config.headers ==> r.headers[h] == config.headers[h]
  {
    match session
    case Session(Some(token)) => config.(headers := config.headers["Authorization" := "Bearer " + token])
    case _ => config
  }

  /** Running the interceptor twice with the same session is the same as once. */
  lemma InterceptIdempotent(config: Config, session: Session)
    ensures Intercept(Intercept(config, session), session) == Intercept(config, session)
  {
  }

  /** Starting without an `Authorization` header, the interceptor leaves one exactly when the session has a token. */
  lemma BearerOnlyWithToken(config: Config, session: Session)
    requires "Authorization" !in config.headers
    ensures "Authorization" in Intercept(config, session).headers <==> HasToken(session)
  {
  }
}
