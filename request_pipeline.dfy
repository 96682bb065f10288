/**
 * The request pipeline of src/app.ts: the error presenter `errorShow`, the envelope check
 * `errorThrower`, the session guard `responseHandler`, the catch-all `errorHandler` and the
 * credential interceptor. Browser and UI-library calls (toasts, notifications, navigation)
 * are recorded as Actions in the order they are made; the current location and the two
 * credential slots of local storage are inputs.
 */
module RequestPipeline {
  import opened Wrappers
  import opened Text
  import opened Lists
  import opened OrderedMaps
  import opened Json

  /** One call into antd, umi's history or the browser. */
  datatype Action =
    | WarnToast(content: Option<Json>)                      // message.warning(content)
    | ErrorToast(content: Option<Json>)                     // message.error(content)
    | InfoToast(text: string)                               // message.info(text)
    | Notify(title: Option<Json>, description: Option<Json>) // notification.open({ message, description })
    | HistoryPush(target: Option<Json>)                     // history.push(target)
    | AssignHref(href: string)                              // window.location.href = href

  /** The presentation tags of `ErrorShowType`. */
  datatype ShowType = Silent | WarnMessage | ErrorMessage | Notification | Redirect

  /** How each tag travels in a response body. */
  function Wire(t: ShowType): Json {
    match t
    case Silent => JStr("SILENT")
    case WarnMessage => JStr("WARN_MESSAGE")
    case ErrorMessage => JStr("ERROR_MESSAGE")
    case Notification => JStr("NOTIFICATION")
    case Redirect => JStr("REDIRECT")
  }

  /** The `case` of the `switch` a tag value selects (`===` on each member); None is `default`. */
  function ShowTypeOf(tag: Option<Json>): (r: Option<ShowType>)
    ensures r.Some? ==> tag == Some(Wire(r.value))
    ensures forall t :: tag == Some(Wire(t)) ==> r == Some(t)
  {
    if tag == Some(Wire(Silent)) then Some(Silent)
    else if tag == Some(Wire(WarnMessage)) then Some(WarnMessage)
    else if tag == Some(Wire(ErrorMessage)) then Some(ErrorMessage)
    else if tag == Some(Wire(Notification)) then Some(Notification)
    else if tag == Some(Wire(Redirect)) then Some(Redirect)
    else None
  }

  // ---------------------------------------------------------------------------------------
  // errorShow (src/app.ts:138-175)
  // ---------------------------------------------------------------------------------------

  /** `error.content || error`: where the presented fields are read from. */
  function ErrorSource(error: Json): (r: Json)
    ensures r == error || (Prop(error, "content") == Some(r) && Truthy(r))
    ensures error != JNull ==> r != JNull
  {
    match Prop(error, "content")
    case Some(c) => if Truthy(c) then c else error
    case None => error
  }

  /** The calls `errorShow(error)` makes. */
  function ErrorShowActions(error: Json): (actions: seq<Action>)
    requires error != JNull
    ensures |actions| <= 2
    ensures error.JArr? ==>
      actions == [WarnToast(if error.items == [] then None else Prop(error.items[0], "msg"))]
    ensures !error.JArr? ==>
      var src := ErrorSource(error);
      var msg, tag := Prop(src, "message"), Prop(src, "show_type");
      && (tag == Some(Wire(Silent)) ==> actions == [])
      && (tag == Some(Wire(WarnMessage)) ==> actions == [WarnToast(msg)])
      && (tag == Some(Wire(ErrorMessage)) ==> actions == [ErrorToast(msg)])
      && (tag == Some(Wire(Notification)) ==> actions == [Notify(Prop(src, "code"), msg)])
      && (tag == Some(Wire(Redirect)) ==> actions == [ErrorToast(msg), HistoryPush(Prop(src, "target"))])
      && ((forall t :: tag != Some(Wire(t))) ==> actions == [ErrorToast(msg)])
  {
    if error.JArr? then
      [WarnToast(if error.items == [] then None else Prop(error.items[0], "msg"))]
    else
      var src := ErrorSource(error);
      var code, msg, tag, target := Prop(src, "code"), Prop(src, "message"), Prop(src, "show_type"), Prop(src, "target");
      match ShowTypeOf(tag)
      case Some(Silent) => []
      case Some(WarnMessage) => [WarnToast(msg)]
      case Some(ErrorMessage) => [ErrorToast(msg)]
      case Some(Notification) => [Notify(code, msg)]
      case Some(Redirect) => [ErrorToast(msg), HistoryPush(target)]
      case None => [ErrorToast(msg)]
  }

  /** An error carrying a presentable `content` is presented exactly as that content would be
      on its own (unless the content is itself an array or wraps a further `content`). */
  lemma ErrorShowUsesContent(error: Json, content: Json)
    requires error != JNull && !error.JArr? && Prop(error, "content") == Some(content)
    requires Truthy(content) && !content.JArr? && ErrorSource(content) == content
    ensures ErrorShowActions(error) == ErrorShowActions(content)
  {
  }

  /** Presentation policy: at most one message (toast or notification), nothing only for
      SILENT, a navigation only for REDIRECT and then after its error toast, and never a
      location change or an info notice. */
  lemma ErrorShowPolicy(error: Json)
    requires error != JNull
    ensures var a := ErrorShowActions(error);
      var tag := ShowTypeOf(Prop(ErrorSource(error), "show_type"));
      && (a == [] <==> !error.JArr? && tag == Some(Silent))
      && ((exists i :: 0 <= i < |a| && a[i].HistoryPush?) <==> !error.JArr? && tag == Some(Redirect))
      && (forall i :: 0 <= i < |a| ==> !a[i].InfoToast? && !a[i].AssignHref?)
      && (forall i :: 0 <= i < |a| && a[i].HistoryPush? ==> i == 1 && a[0].ErrorToast?)
  {
    var a := ErrorShowActions(error);
    if !error.JArr? && ShowTypeOf(Prop(ErrorSource(error), "show_type")) == Some(Redirect) {
      assert a[1].HistoryPush?;
    }
  }

  // ---------------------------------------------------------------------------------------
  // errorThrower (src/app.ts:212-227)
  // ---------------------------------------------------------------------------------------

  datatype ThrowerResult = Passes | ThrowsBizError(error: Json) | ThrowsTypeError

  function OptField(key: string, v: Option<Json>): seq<(string, Json)> {
    match v
    case Some(x) => [(key, x)]
    case None => []
  }

  /** The own properties of the `BizError` that `errorThrower` builds; a property assigned
      `undefined` reads like an absent one and is left out. */
  function BizErrorObject(code: Option<Json>, content: Json): (r: Json)
    ensures IsBizError(r)
  {
    JObj([("name", JStr("BizError"))] + OptField("code", code) + OptField("message", Prop(content, "message"))
         + [("content", content), ("showType", DefaultShowType(content))] + OptField("target", Prop(content, "target")))
  }

  /** `content.show_type || ErrorShowType.ERROR_MESSAGE`. */
  function DefaultShowType(content: Json): (r: Json)
    ensures Truthy(r)
    ensures r == Wire(ErrorMessage) || Prop(content, "show_type") == Some(r)
  {
    var st := Prop(content, "show_type");
    if st.Some? && Truthy(st.value) then st.value else Wire(ErrorMessage)
  }

  /** `errorThrower(res)`. Reading `content.message` comes first, so a body without a
      non-null `content` throws a TypeError whatever `success` says. */
  function ErrorThrower(res: Json): (r: ThrowerResult)
    ensures r.Passes? || r.ThrowsBizError? <==> res != JNull && Prop(res, "content").Some? && Prop(res, "content").value != JNull
    ensures r.ThrowsBizError? <==> (r.Passes? || r.ThrowsBizError?) && !(Prop(res, "success").Some? && Truthy(Prop(res, "success").value))
  {
    if res.JNull? then ThrowsTypeError
    else match Prop(res, "content")
      case None => ThrowsTypeError
      case Some(content) =>
        if content.JNull? then ThrowsTypeError
        else
          var success := Prop(res, "success");
          if success.Some? && Truthy(success.value) then Passes
          else ThrowsBizError(BizErrorObject(Prop(res, "code"), content))
  }

  lemma BizErrorKeysUnique(code: Option<Json>, content: Json)
    ensures UniqueKeys(BizErrorObject(code, content).fields)
  {
    var oc, om, ot := OptField("code", code), OptField("message", Prop(content, "message")), OptField("target", Prop(content, "target"));
    var head := [("name", JStr("BizError"))];
    var mid := [("content", content), ("showType", DefaultShowType(content))];
    assert "name"[0] != "code"[0];
    UniqueKeysAppend(head, oc);
    UniqueKeysAppend(head + oc, om);
    assert "message"[0] != "content"[0];
    UniqueKeysAppend(head + oc + om, mid);
    UniqueKeysAppend(head + oc + om + mid, ot);
  }

  lemma PropAt(fields: seq<(string, Json)>, i: nat)
    requires UniqueKeys(fields) && i < |fields|
    ensures Prop(JObj(fields), fields[i].0) == Some(fields[i].1)
  {
  }

  lemma PropAbsent(fields: seq<(string, Json)>, k: string)
    requires forall i :: 0 <= i < |fields| ==> fields[i].0 != k
    ensures Prop(JObj(fields), k) == None
  {
  }

  lemma BizErrorCode(code: Option<Json>, content: Json)
    ensures Prop(BizErrorObject(code, content), "code") == code
  {
    var f := BizErrorObject(code, content).fields;
    BizErrorKeysUnique(code, content);
    if code.Some? {
      assert f[1] == ("code", code.value);
      PropAt(f, 1);
    } else {
      PropAbsent(f, "code");
    }
  }

  lemma BizErrorMessage(code: Option<Json>, content: Json)
    ensures Prop(BizErrorObject(code, content), "message") == Prop(content, "message")
  {
    var msg := Prop(content, "message");
    var f := BizErrorObject(code, content).fields;
    BizErrorKeysUnique(code, content);
    var c := |OptField("code", code)|;
    if msg.Some? {
      assert f[1 + c] == ("message", msg.value);
      PropAt(f, 1 + c);
    } else {
      PropAbsent(f, "message");
    }
  }

  lemma BizErrorTarget(code: Option<Json>, content: Json)
    ensures Prop(BizErrorObject(code, content), "target") == Prop(content, "target")
  {
    var target := Prop(content, "target");
    var f := BizErrorObject(code, content).fields;
    BizErrorKeysUnique(code, content);
    if target.Some? {
      assert f[|f| - 1] == ("target", target.value);
      PropAt(f, |f| - 1);
    } else {
      PropAbsent(f, "target");
    }
  }

  lemma BizErrorFixedFields(code: Option<Json>, content: Json)
    ensures var e := BizErrorObject(code, content);
      && Prop(e, "name") == Some(JStr("BizError"))
      && Prop(e, "content") == Some(content)
      && Prop(e, "showType") == Some(DefaultShowType(content))
  {
    var f := BizErrorObject(code, content).fields;
    BizErrorKeysUnique(code, content);
    var c, m := |OptField("code", code)|, |OptField("message", Prop(content, "message"))|;
    PropAt(f, 0);
    assert f[1 + c + m].0 == "content";
    PropAt(f, 1 + c + m);
    assert f[2 + c + m].0 == "showType";
    PropAt(f, 2 + c + m);
  }

  /** The thrown error itself has no `show_type` property: it carries `showType`. */
  lemma BizErrorNoShowTypeKey(code: Option<Json>, content: Json)
    ensures Prop(BizErrorObject(code, content), "show_type") == None
  {
    var f := BizErrorObject(code, content).fields;
    var oc, om := OptField("code", code), OptField("message", Prop(content, "message"));
    var ot := OptField("target", Prop(content, "target"));
    assert f == [("name", JStr("BizError"))] + oc + om + [("content", content), ("showType", DefaultShowType(content))] + ot;
    forall i | 0 <= i < |f| ensures f[i].0 != "show_type" {
      if i == 0 {
      } else if i < 1 + |oc| {
        assert f[i] == oc[i - 1];
      } else if i < 1 + |oc| + |om| {
        assert f[i] == om[i - 1 - |oc|];
      } else if i < 3 + |oc| + |om| {
      } else {
        assert f[i] == ot[i - 3 - |oc| - |om|];
      }
    }
    PropAbsent(f, "show_type");
  }

  /** The thrown error: named `BizError`, `code` from the envelope, `message`, `content` and
      `target` from the content, `showType` from `content.show_type` or ERROR_MESSAGE. */
  lemma BizErrorFields(res: Json)
    requires ErrorThrower(res).ThrowsBizError?
    ensures var e := ErrorThrower(res).error;
      var content := Prop(res, "content").value;
      var st := Prop(content, "show_type");
      && Prop(e, "name") == Some(JStr("BizError"))
      && Prop(e, "code") == Prop(res, "code")
      && Prop(e, "message") == Prop(content, "message")
      && Prop(e, "content") == Some(content)
      && Prop(e, "target") == Prop(content, "target")
      && Prop(e, "showType") == Some(if st.Some? && Truthy(st.value) then st.value else Wire(ErrorMessage))
  {
    BizErrorCode(Prop(res, "code"), Prop(res, "content").value);
    BizErrorMessage(Prop(res, "code"), Prop(res, "content").value);
    BizErrorTarget(Prop(res, "code"), Prop(res, "content").value);
    BizErrorFixedFields(Prop(res, "code"), Prop(res, "content").value);
  }

  // ---------------------------------------------------------------------------------------
  // The session guard (src/app.ts:177-206)
  // ---------------------------------------------------------------------------------------

  const LoginPath := "/login"
  const SigningInNotice := "登录中, 请稍等..."

  /** Where the browser is: `location.pathname`, and the `redirectUri` parameter that
      `URLSearchParams(location.search)` reports (None when absent). */
  datatype Location = Location(pathname: string, redirectUriParam: Option<string>)

  /** The root page and the pages under `/login` and `/setup` need no session. */
  predicate IsAuthExempt(pathname: string)
    ensures StartsWith(pathname, LoginPath) ==> IsAuthExempt(pathname)
  {
    pathname == "/" || StartsWith(pathname, "/login") || StartsWith(pathname, "/setup")
  }

  /** The `redirectUri` computed for a page that is not exempt. */
  function RedirectUri(loc: Location): (uri: string)
    ensures !IsAuthExempt(loc.pathname) ==>
      uri == if StartsWith(loc.pathname, "/api") then "/" else loc.pathname
  {
    var r := if StartsWith(loc.pathname, "/api") then "/" else loc.pathname;
    assert r == "/" ==> !StartsWith(r, LoginPath) by {
      if r == "/" { assert |r| < |LoginPath|; }
    }
    if StartsWith(r, LoginPath) then
      (match loc.redirectUriParam
       case Some(p) => if p != "" then p else "/"
       case None => "/")
    else r
  }

  /** What a 401 response makes the guard do. */
  function SessionGuardActions(loc: Location): (a: seq<Action>)
    ensures a == [] <==> IsAuthExempt(loc.pathname)
    ensures a != [] ==> |a| == 2 && a[0] == InfoToast(SigningInNotice) && a[1].AssignHref?
  {
    if IsAuthExempt(loc.pathname) then []
    else [InfoToast(SigningInNotice), AssignHref(LoginPath + "?redirectUri=" + RedirectUri(loc))]
  }

  /** On an exempt page nothing happens; anywhere else one notice, then one navigation to the
      login page carrying the current page, or `/` when the current page is an API path. The
      query-parameter branch never fires: a path under `/login` is exempt. */
  lemma SessionGuardRedirect(loc: Location)
    ensures IsAuthExempt(loc.pathname) ==> SessionGuardActions(loc) == []
    ensures !IsAuthExempt(loc.pathname) ==>
      SessionGuardActions(loc) == [InfoToast(SigningInNotice),
        AssignHref("/login?redirectUri=" + (if StartsWith(loc.pathname, "/api") then "/" else loc.pathname))]
  {
    if !IsAuthExempt(loc.pathname) {
      var r := if StartsWith(loc.pathname, "/api") then "/" else loc.pathname;
      assert !StartsWith(r, LoginPath) by {
        if r == "/" { assert |r| < |LoginPath|; }
      }
      assert LoginPath + "?redirectUri=" + r == "/login?redirectUri=" + r;
    }
  }

  lemma SessionGuardExamples(param: Option<string>)
    ensures SessionGuardActions(Location("/login", param)) == []
    ensures SessionGuardActions(Location("/setup", param)) == []
    ensures SessionGuardActions(Location("/cube/chat", param))
            == [InfoToast(SigningInNotice), AssignHref("/login?redirectUri=/cube/chat")]
  {
    var p := "/cube/chat";
    assert p[..6] != "/login" && p[..6] != "/setup" && p[..4] != "/api" by {
      assert p[1] == 'c';
    }
    assert "/login?redirectUri=" + p == "/login?redirectUri=/cube/chat";
    SessionGuardRedirect(Location(p, param));
  }

  // ---------------------------------------------------------------------------------------
  // Normalised bodies (src/app.ts:204 then 238-239)
  // ---------------------------------------------------------------------------------------

  lemma NormalisedKeys(v: Json)
    requires v.JObj?
    ensures forall k :: k in KeySet(ToCamelCase(v).fields) ==> NoSeparator(k)
  {
    ObjectKeys(v.fields);
  }

  /** A normalised value has no `show_type` field. */
  lemma NoShowTypeAfterNormalising(v: Json)
    ensures Prop(ToCamelCase(v), "show_type") == None
  {
    if v.JObj? {
      NormalisedKeys(v);
      var st := "show_type";
      assert !NoSeparator(st) by { assert IsSeparator(st[4]); }
    }
  }

  /** Nor has the `content` that `errorShow` would read in its place. */
  lemma {:induction false} NoShowTypeInNormalisedSource(v: Json)
    ensures Prop(ErrorSource(ToCamelCase(v)), "show_type") == None
  {
    NoShowTypeAfterNormalising(v);
    var src := ErrorSource(ToCamelCase(v));
    if v.JObj? && src != ToCamelCase(v) && src.JObj? {
      NormalisedValueOrigin(v.fields, "content");
      var i :| 0 <= i < |v.fields| && src == ConvertValue(v.fields[i].1);
      NoShowTypeAfterNormalising(v.fields[i].1);
    }
  }

  /** A transport error with a body is always shown as exactly one toast: a warning for an
      array body, an error toast otherwise. The body's `show_type` has become `showType` by
      the time `errorShow` looks for `show_type`, so SILENT, NOTIFICATION and REDIRECT bodies
      are never honoured on this path. */
  lemma TransportBodyPresentation(data: Json)
    requires Truthy(data)
    ensures var a := ErrorShowActions(ToCamelCase(data));
      |a| == 1 && (data.JArr? ==> a[0].WarnToast?) && (!data.JArr? ==> a[0].ErrorToast?)
  {
    NoShowTypeInNormalisedSource(data);
  }

  lemma SilentBodyConverted()
    ensures ConvertedFields([("show_type", Wire(Silent)), ("message", JStr("m"))])
         == [("showType", Wire(Silent)), ("message", JStr("m"))]
  {
    var f := [("show_type", Wire(Silent)), ("message", JStr("m"))];
    var c := ConvertedFields(f);
    CamelCaseExamples();
    MessageKeyKept();
    assert c[0] == ("showType", Wire(Silent));
    assert c[1] == ("message", JStr("m"));
  }

  lemma MessageKeyKept()
    ensures CamelCase("message") == "message"
  {
    var k := "message";
    assert NoSeparator(k) by {
      assert forall i :: 0 <= i < |k| ==> 'a' <= k[i] <= 'z';
    }
    CamelCaseFixedPoints(k);
  }

  lemma SilentBodyNormalised()
    ensures ToCamelCase(JObj([("show_type", Wire(Silent)), ("message", JStr("m"))]))
         == JObj([("showType", Wire(Silent)), ("message", JStr("m"))])
  {
    ObjectCase([("show_type", Wire(Silent)), ("message", JStr("m"))]);
    SilentBodyConverted();
    SilentBodyKeysUnique();
    PutAllOntoEmpty([("showType", Wire(Silent)), ("message", JStr("m"))]);
  }

  lemma SilentBodyKeysUnique()
    ensures UniqueKeys([("showType", Wire(Silent)), ("message", JStr("m"))])
  {
    var g := [("showType", Wire(Silent)), ("message", JStr("m"))];
    assert g[0].0[0] != g[1].0[0];
  }

  /** The raw body would be silent; once normalised it shows an error toast. */
  lemma SilentBodyExample()
    ensures var body := JObj([("show_type", Wire(Silent)), ("message", JStr("m"))]);
      && ErrorShowActions(body) == []
      && ErrorShowActions(ToCamelCase(body)) == [ErrorToast(Some(JStr("m")))]
  {
    RawSilentBody();
    SilentBodyNormalised();
    NormalisedSilentBody();
  }

  lemma RawSilentBody()
    ensures ErrorShowActions(JObj([("show_type", Wire(Silent)), ("message", JStr("m"))])) == []
  {
    var f := [("show_type", Wire(Silent)), ("message", JStr("m"))];
    assert "show_type" != "content" && "message" != "content";
    PropAbsent(f, "content");
    PropAt(f, 0);
  }

  lemma NormalisedSilentBody()
    ensures ErrorShowActions(JObj([("showType", Wire(Silent)), ("message", JStr("m"))]))
            == [ErrorToast(Some(JStr("m")))]
  {
    var g := [("showType", Wire(Silent)), ("message", JStr("m"))];
    assert "showType" != "content" && "showType" != "show_type" && "message" != "show_type";
    assert "message" != "content";
    PropAbsent(g, "content");
    PropAbsent(g, "show_type");
    PropAt(g, 1);
  }

  // ---------------------------------------------------------------------------------------
  // errorHandler (src/app.ts:228-255)
  // ---------------------------------------------------------------------------------------

  const NoResponseText := "None response! Please retry."
  const RequestErrorText := "Request error, please retry."

  /** The status and body of an HTTP response. */
  datatype ResponseView = ResponseView(status: int, data: Json)

  predicate IsBizError(props: Json)
    ensures IsBizError(props) ==> props.JObj?
  {
    Prop(props, "name") == Some(JStr("BizError"))
  }

  /** What the handler shows once it has decided to present an error: a business error
      through `errorShow`, a response through its body or its status, a request that got no
      answer, or a request that could not be sent. */
  function Presentation(props: Json, response: Option<ResponseView>, request: bool): (a: seq<Action>)
    ensures IsBizError(props) ==> a == ErrorShowActions(props)
    ensures !IsBizError(props) && response.Some? && Truthy(response.value.data) ==>
      a == ErrorShowActions(response.value.data)
    ensures !IsBizError(props) && response.Some? && !Truthy(response.value.data) ==>
      a == [ErrorToast(Some(JStr("Response status:" + IntToString(response.value.status))))]
    ensures !IsBizError(props) && response.None? ==>
      a == [ErrorToast(Some(JStr(if request then NoResponseText else RequestErrorText)))]
    ensures |a| <= 2
  {
    if IsBizError(props) then ErrorShowActions(props)
    else if response.Some? then
      if Truthy(response.value.data) then ErrorShowActions(response.value.data)
      else [ErrorToast(Some(JStr("Response status:" + IntToString(response.value.status))))]
    else if request then [ErrorToast(Some(JStr(NoResponseText)))]
    else [ErrorToast(Some(JStr(RequestErrorText)))]
  }

  /** How a call to the handler ends: it returns, it re-throws the error, or reading
      `response.status` of an absent response throws a TypeError. */
  datatype Outcome = Returned | Rethrown | Crashed

  datatype Handled = Handled(actions: seq<Action>, outcome: Outcome)

  /** `errorHandler(error, opts)` as written. `skip` is `opts.skipErrorHandler` before the
      call, None when no options object is passed. The response is read as it was thrown;
      the handler itself normalises its body before presenting it. */
  function HandleError(loc: Location, props: Json, response: Option<ResponseView>, request: bool, skip: Option<bool>): (h: Handled)
    ensures response.None? <==> h.outcome == Crashed
  {
    match response
    case None => Handled([], Crashed)
    case Some(resp) =>
      var guard := if resp.status == 401 then SessionGuardActions(loc) else [];
      if skip.Some? && (skip.value || resp.status == 401) then Handled(guard, Rethrown)
      else Handled(guard + Presentation(props, Some(ResponseView(resp.status, ToCamelCase(resp.data))), request), Returned)
  }

  /** The handler with the session guard applied only when there is a response to inspect. */
  function HandleErrorGuarded(loc: Location, props: Json, response: Option<ResponseView>, request: bool, skip: Option<bool>): (h: Handled)
    ensures h.outcome != Crashed
  {
    match response
    case None =>
      if skip == Some(true) then Handled([], Rethrown) else Handled(Presentation(props, None, request), Returned)
    case Some(_) => HandleError(loc, props, response, request, skip)
  }

  /** The handler as written: without a response it crashes having done nothing; with one
      it re-throws exactly when the options ask it to skip or the status is 401, and
      otherwise presents the error after the guard. */
  lemma HandleErrorOutcomes(loc: Location, props: Json, response: Option<ResponseView>, request: bool, skip: Option<bool>)
    ensures var h := HandleError(loc, props, response, request, skip);
      && (h.outcome == Crashed ==> h.actions == [])
      && (h.outcome == Rethrown <==> response.Some? && skip.Some? && (skip.value || response.value.status == 401))
      && (response.Some? && response.value.status != 401 ==>
            h.actions == if h.outcome == Rethrown then []
                         else Presentation(props, Some(ResponseView(response.value.status, ToCamelCase(response.value.data))), request))
  {
  }

  /** The guarded handler never crashes, agrees with the handler as written whenever there is
      a response, and otherwise re-throws on request or presents the error. */
  lemma HandleErrorGuardedOutcomes(loc: Location, props: Json, response: Option<ResponseView>, request: bool, skip: Option<bool>)
    ensures var h := HandleErrorGuarded(loc, props, response, request, skip);
      && (h.outcome == Rethrown <==> skip.Some? && (skip.value || (response.Some? && response.value.status == 401)))
      && (response.Some? ==> h == HandleError(loc, props, response, request, skip))
      && (response.None? ==> h.actions == if h.outcome == Rethrown then [] else Presentation(props, None, request))
  {
  }

  /** A 401 with an options object: the guard's actions, then the error is re-thrown. A 401
      without one: the guard's actions, then the error is presented as well. */
  lemma UnauthorisedHandling(loc: Location, props: Json, data: Json, request: bool, skip: Option<bool>)
    ensures var h := HandleError(loc, props, Some(ResponseView(401, data)), request, skip);
      && (skip.Some? ==> h == Handled(SessionGuardActions(loc), Rethrown))
      && (skip.None? ==> h == Handled(SessionGuardActions(loc)
            + Presentation(props, Some(ResponseView(401, ToCamelCase(data))), request), Returned))
  {
  }

  /** A business error thrown by `errorThrower` has no `response`, so the handler as written
      stops at the session guard with a TypeError and shows nothing. */
  lemma BizErrorNeverShown(res: Json, loc: Location, skip: Option<bool>)
    requires ErrorThrower(res).ThrowsBizError?
    ensures HandleError(loc, ErrorThrower(res).error, None, false, skip) == Handled([], Crashed)
  {
  }

  lemma BizErrorThrownExample()
    ensures var content := JObj([("message", JStr("m")), ("show_type", Wire(WarnMessage))]);
      var res := JObj([("success", JBool(false)), ("code", JNum(7)), ("content", content)]);
      ErrorThrower(res) == ThrowsBizError(BizErrorObject(Some(JNum(7)), content))
  {
    var content := JObj([("message", JStr("m")), ("show_type", Wire(WarnMessage))]);
    var rf := [("success", JBool(false)), ("code", JNum(7)), ("content", content)];
    assert "success" != "content" && "code" != "content" && "success" != "code";
    PropAt(rf, 0);
    PropAt(rf, 1);
    PropAt(rf, 2);
  }

  lemma BizErrorShownExample()
    ensures var content := JObj([("message", JStr("m")), ("show_type", Wire(WarnMessage))]);
      ErrorShowActions(BizErrorObject(Some(JNum(7)), content)) == [WarnToast(Some(JStr("m")))]
  {
    var cf := [("message", JStr("m")), ("show_type", Wire(WarnMessage))];
    var content := JObj(cf);
    assert "message" != "content" && "show_type" != "content";
    PropAbsent(cf, "content");
    PropAt(cf, 0);
    PropAt(cf, 1);
    BizErrorFixedFields(Some(JNum(7)), content);
    ErrorShowUsesContent(BizErrorObject(Some(JNum(7)), content), content);
  }

  /** A business error from the envelope `{success: false, code: 7, content: {message: "m",
      show_type: WARN_MESSAGE}}`: nothing is shown as written; one warning with the guard
      applied only to responses. */
  lemma BizErrorExample(loc: Location)
    ensures var content := JObj([("message", JStr("m")), ("show_type", Wire(WarnMessage))]);
      var res := JObj([("success", JBool(false)), ("code", JNum(7)), ("content", content)]);
      && ErrorThrower(res).ThrowsBizError?
      && HandleError(loc, ErrorThrower(res).error, None, false, None) == Handled([], Crashed)
      && HandleErrorGuarded(loc, ErrorThrower(res).error, None, false, None) == Handled([WarnToast(Some(JStr("m")))], Returned)
  {
    var content := JObj([("message", JStr("m")), ("show_type", Wire(WarnMessage))]);
    var e := BizErrorObject(Some(JNum(7)), content);
    BizErrorThrownExample();
    BizErrorShownExample();
    assert Presentation(e, None, false) == [WarnToast(Some(JStr("m")))];
  }

  /** The envelope reaches `errorThrower` camel-cased when the response interceptor
      (`responseHandler`, installed at src/app.ts:268) runs first. Its content then has no
      `show_type`, so with the guard applied only to responses the business error is always
      shown as one error toast carrying its message, whatever tag the server sent. */
  lemma NormalisedBizErrorShownAsError(res: Json, loc: Location, skip: Option<bool>)
    requires ErrorThrower(ToCamelCase(res)).ThrowsBizError?
    requires skip != Some(true)
    ensures var e := ErrorThrower(ToCamelCase(res)).error;
      HandleErrorGuarded(loc, e, None, false, skip)
        == Handled([ErrorToast(Prop(ErrorSource(e), "message"))], Returned)
  {
    var n := ToCamelCase(res);
    var content := Prop(n, "content").value;
    var e := BizErrorObject(Prop(n, "code"), content);
    assert ErrorThrower(n).error == e;
    BizErrorFixedFields(Prop(n, "code"), content);
    assert Prop(ErrorSource(e), "show_type") == None by {
      if ErrorSource(e) == e {
        BizErrorNoShowTypeKey(Prop(n, "code"), content);
      } else {
        assert ErrorSource(n) == content;
        NoShowTypeInNormalisedSource(res);
      }
    }
  }

  /** With the guard applied only to responses, a business error whose content is an object
      is shown exactly as `errorShow` shows that content: its message under its own
      `show_type`. */
  lemma GuardedBizErrorShown(res: Json, loc: Location, skip: Option<bool>)
    requires ErrorThrower(res).ThrowsBizError?
    requires skip != Some(true)
    requires Prop(res, "content").value.JObj?
    requires ErrorSource(Prop(res, "content").value) == Prop(res, "content").value
    ensures HandleErrorGuarded(loc, ErrorThrower(res).error, None, false, skip)
            == Handled(ErrorShowActions(Prop(res, "content").value), Returned)
  {
    BizErrorFields(res);
    ErrorShowUsesContent(ErrorThrower(res).error, Prop(res, "content").value);
  }

  // ---------------------------------------------------------------------------------------
  // The credential interceptor (src/app.ts:257-267)
  // ---------------------------------------------------------------------------------------

  /** The two credential slots of local storage; None when the slot is empty. */
  datatype Credentials = Credentials(accessToken: Option<string>, tokenType: Option<string>)

  function TokenScheme(tokenType: Option<string>): (r: string)
    ensures r != ""
    ensures tokenType.Some? && tokenType.value != "" ==> r == tokenType.value
    ensures tokenType.None? || tokenType.value == "" ==> r == "bearer"
  {
    match tokenType
    case Some(t) => if t != "" then t else "bearer"
    case None => "bearer"
  }

  /** The `Authorization` header value, present exactly when the access token is non-empty. */
  function AuthorizationValue(c: Credentials): (r: Option<string>)
    ensures r.Some? <==> c.accessToken.Some? && c.accessToken.value != ""
  {
    match c.accessToken
    case Some(t) => if t != "" then Some(TokenScheme(c.tokenType) + " " + t) else None
    case None => None
  }

  /** The request's headers after the interceptor. */
  function InterceptedHeaders(headers: map<string, string>, c: Credentials): (r: map<string, string>)
    ensures forall k :: k in headers && k != "Authorization" ==> k in r && r[k] == headers[k]
    ensures r.Keys == headers.Keys + (if AuthorizationValue(c).Some? then {"Authorization"} else {})
    ensures AuthorizationValue(c).Some? ==> r["Authorization"] == AuthorizationValue(c).value
    ensures AuthorizationValue(c).None? ==> r == headers
  {
    match AuthorizationValue(c)
    case Some(a) => headers["Authorization" := a]
    case None => headers
  }

  /** How a server reads such a header: the scheme before the first space, the credential
      after it. */
  function SchemeOf(h: string): string {
    if h == [] || h[0] == ' ' then [] else [h[0]] + SchemeOf(h[1..])
  }

  function CredentialOf(h: string): string {
    if h == [] then [] else if h[0] == ' ' then h[1..] else CredentialOf(h[1..])
  }

  lemma {:induction false} SplitAtSpace(scheme: string, token: string)
    requires forall i :: 0 <= i < |scheme| ==> scheme[i] != ' '
    ensures SchemeOf(scheme + " " + token) == scheme
    ensures CredentialOf(scheme + " " + token) == token
  {
    if scheme != [] {
      assert (scheme + " " + token)[1..] == scheme[1..] + " " + token;
      SplitAtSpace(scheme[1..], token);
    } else {
      assert scheme + " " + token == [' '] + token;
    }
  }

  /** The header round-trips: its scheme is the stored token type (or `bearer`) and its
      credential the stored access token, provided the token type holds no space. */
  lemma AuthorizationParses(c: Credentials)
    requires AuthorizationValue(c).Some?
    requires forall i :: 0 <= i < |TokenScheme(c.tokenType)| ==> TokenScheme(c.tokenType)[i] != ' '
    ensures SchemeOf(AuthorizationValue(c).value) == TokenScheme(c.tokenType)
    ensures CredentialOf(AuthorizationValue(c).value) == c.accessToken.value
  {
    SplitAtSpace(TokenScheme(c.tokenType), c.accessToken.value);
  }

  lemma AuthorizationExamples()
    ensures AuthorizationValue(Credentials(Some("T"), None)) == Some("bearer T")
    ensures AuthorizationValue(Credentials(Some("T"), Some("Bearer"))) == Some("Bearer T")
    ensures AuthorizationValue(Credentials(Some(""), Some("Bearer"))) == None
  {
    assert "bearer" + " " + "T" == "bearer T";
    assert "Bearer" + " " + "T" == "Bearer T";
  }

  // ---------------------------------------------------------------------------------------
  // The browser-side objects the pipeline updates in place
  // ---------------------------------------------------------------------------------------

  class HttpResponse {
    var status: int
    var data: Json

    constructor(status: int, data: Json)
      ensures this.status == status && this.data == data
    {
      this.status := status;
      this.data := data;
    }
  }

  /** The per-request options object; the guard sets its `skipErrorHandler`. */
  class RequestOptions {
    var skipErrorHandler: bool

    constructor(skipErrorHandler: bool)
      ensures this.skipErrorHandler == skipErrorHandler
    {
      this.skipErrorHandler := skipErrorHandler;
    }
  }

  /** A thrown error: its own properties, its `response` (null when none) and whether a
      request was sent (`error.request`). */
  class ThrownError {
    const props: Json
    const response: HttpResponse?
    const request: bool

    constructor(props: Json, response: HttpResponse?, request: bool)
      ensures this.props == props && this.response == response && this.request == request
    {
      this.props := props;
      this.response := response;
      this.request := request;
    }
  }

  /** A request about to be sent: its headers and every other setting. */
  class RequestConfig {
    var headers: map<string, string>
    var settings: seq<(string, Json)>

    constructor(headers: map<string, string>, settings: seq<(string, Json)>)
      ensures this.headers == headers && this.settings == settings
    {
      this.headers := headers;
      this.settings := settings;
    }
  }

  /** The status and body a response object holds now; None for no response. */
  function ViewOf(response: HttpResponse?): Option<ResponseView>
    reads response
  {
    if response == null then None else Some(ResponseView(response.status, response.data))
  }

  /** `opts.skipErrorHandler` now; None for no options object. */
  function SkipOf(opts: RequestOptions?): Option<bool>
    reads opts
  {
    if opts == null then None else Some(opts.skipErrorHandler)
  }

  /** The page the pipeline runs in: where it is, what local storage holds, and every call it
      has made into the UI library and the browser so far. */
  class Browser {
    const location: Location
    const storage: Credentials
    var log: seq<Action>

    constructor(location: Location, storage: Credentials)
      ensures this.location == location && this.storage == storage && log == []
    {
      this.location := location;
      this.storage := storage;
      log := [];
    }

    /** `errorShow(error)`. */
    method ErrorShow(error: Json)
      requires error != JNull
      modifies this
      ensures log == old(log) + ErrorShowActions(error)
    {
      if error.JArr? {
        var first := if error.items == [] then None else Prop(error.items[0], "msg");
        log := log + [WarnToast(first)];
        return;
      }
      var src := ErrorSource(error);
      var code, msg, tag, target := Prop(src, "code"), Prop(src, "message"), Prop(src, "show_type"), Prop(src, "target");
      match ShowTypeOf(tag) {
        case Some(Silent) =>
        case Some(WarnMessage) =>
          log := log + [WarnToast(msg)];
        case Some(ErrorMessage) =>
          log := log + [ErrorToast(msg)];
        case Some(Notification) =>
          log := log + [Notify(code, msg)];
        case Some(Redirect) =>
          log := log + [ErrorToast(msg)];
          log := log + [HistoryPush(target)];
        case None =>
          log := log + [ErrorToast(msg)];
      }
    }

    /** `responseHandler(response, opts)`: on a 401 the session guard, and the options told to
        skip the error handler; in every case the body normalised. */
    method ResponseHandler(response: HttpResponse, opts: RequestOptions?)
      modifies this, response, opts
      ensures response.status == old(response.status)
      ensures response.data == ToCamelCase(old(response.data))
      ensures log == old(log) + (if response.status == 401 then SessionGuardActions(location) else [])
      ensures opts != null ==> opts.skipErrorHandler == (old(opts.skipErrorHandler) || response.status == 401)
    {
      if response.status == 401 {
        if !IsAuthExempt(location.pathname) {
          log := log + [InfoToast(SigningInNotice)];
          var redirectUri := if StartsWith(location.pathname, "/api") then "/" else location.pathname;
          if StartsWith(redirectUri, LoginPath) {
            redirectUri := match location.redirectUriParam
              case Some(p) => if p != "" then p else "/"
              case None => "/";
          }
          log := log + [AssignHref(LoginPath + "?redirectUri=" + redirectUri)];
        }
        if opts != null {
          opts.skipErrorHandler := true;
        }
      }
      response.data := ToCamelCase(response.data);
    }

    /** The presentation chain of `errorHandler`. */
    method Present(error: ThrownError)
      modifies this
      ensures log == old(log) + Presentation(error.props, ViewOf(error.response), error.request)
    {
      if IsBizError(error.props) {
        ErrorShow(error.props);
      } else if error.response != null {
        if Truthy(error.response.data) {
          ErrorShow(error.response.data);
        } else {
          log := log + [ErrorToast(Some(JStr("Response status:" + IntToString(error.response.status))))];
        }
      } else if error.request {
        log := log + [ErrorToast(Some(JStr(NoResponseText)))];
      } else {
        log := log + [ErrorToast(Some(JStr(RequestErrorText)))];
      }
    }

    /** `errorHandler(error, opts)` as written: the guard runs on `error.response` even when
        there is none. */
    method ErrorHandler(error: ThrownError, opts: RequestOptions?) returns (outcome: Outcome)
      modifies this, error.response, opts
      ensures var h := HandleError(location, error.props, old(ViewOf(error.response)), error.request, old(SkipOf(opts)));
        outcome == h.outcome && log == old(log) + h.actions
      ensures error.response != null ==> error.response.status == old(error.response.status)
      ensures error.response != null ==> error.response.data == ToCamelCase(old(error.response.data))
      ensures opts != null ==>
        opts.skipErrorHandler == (old(opts.skipErrorHandler) || (error.response != null && error.response.status == 401))
    {
      if error.response == null {
        outcome := Crashed;
        return;
      }
      ghost var view := ResponseView(error.response.status, error.response.data);
      ghost var skip := SkipOf(opts);
      ghost var guard := if view.status == 401 then SessionGuardActions(location) else [];
      ghost var before := log;
      assert before == old(log) && old(ViewOf(error.response)) == Some(view) && old(SkipOf(opts)) == skip;
      ResponseHandler(error.response, opts);
      assert log == before + guard;
      if opts != null && opts.skipErrorHandler {
        outcome := Rethrown;
        assert HandleError(location, error.props, Some(view), error.request, skip) == Handled(guard, Rethrown);
        return;
      }
      ghost var shown := ResponseView(view.status, ToCamelCase(view.data));
      assert error.response.status == shown.status && error.response.data == shown.data;
      assert !(skip.Some? && (skip.value || view.status == 401));
      Present(error);
      outcome := Returned;
      ghost var p := Presentation(error.props, Some(shown), error.request);
      AppendAssociative(before, guard, p);
      ghost var h := HandleError(location, error.props, Some(view), error.request, skip);
      assert h == Handled(guard + p, Returned);
      assert h == HandleError(location, error.props, old(ViewOf(error.response)), error.request, old(SkipOf(opts)));
      assert log == old(log) + h.actions;
    }

    /** The handler with the guard applied only when a response exists. */
    method ErrorHandlerGuarded(error: ThrownError, opts: RequestOptions?) returns (outcome: Outcome)
      modifies this, error.response, opts
      ensures var h := HandleErrorGuarded(location, error.props, old(ViewOf(error.response)), error.request, old(SkipOf(opts)));
        outcome == h.outcome && log == old(log) + h.actions
      ensures error.response != null ==> error.response.data == ToCamelCase(old(error.response.data))
      ensures opts != null ==>
        opts.skipErrorHandler == (old(opts.skipErrorHandler) || (error.response != null && error.response.status == 401))
    {
      if error.response != null {
        outcome := ErrorHandler(error, opts);
        return;
      }
      if opts != null && opts.skipErrorHandler {
        outcome := Rethrown;
        return;
      }
      Present(error);
      outcome := Returned;
    }

    /** The request interceptor: the `Authorization` header set on the config's own headers,
        then a shallow copy of the config returned. */
    method RequestInterceptor(config: RequestConfig) returns (copy: RequestConfig)
      modifies config
      ensures fresh(copy)
      ensures config.headers == InterceptedHeaders(old(config.headers), storage)
      ensures config.settings == old(config.settings)
      ensures copy.headers == config.headers && copy.settings == config.settings
    {
      var auth := AuthorizationValue(storage);
      if auth.Some? {
        config.headers := config.headers["Authorization" := auth.value];
      }
      copy := new RequestConfig(config.headers, config.settings);
    }
  }
}
