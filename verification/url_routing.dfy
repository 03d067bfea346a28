/** `shouldOverrideUrlLoading` of the Android host: which URLs the WebView
    loads itself and which leave the app (a phone call or an external
    viewer). */
module UrlRouting {
  import opened Text

  const TelScheme := "tel:"
  const HttpScheme := "http://"
  const HttpsScheme := "https://"

  /** What the host does with a URL besides returning from the callback. */
  datatype Effect =
    | StartCall(callUrl: string)      // ACTION_CALL intent for the tel: URL
    | CallPermissionToast             // "Call permission required ..." toast
    | ViewExternally(viewUrl: string) // ACTION_VIEW intent
    | LoadInWebView                   // nothing: the WebView loads the URL

  /** The effect, and the boolean the callback returns (true: the WebView
      does not load the URL). */
  datatype Routing = Routing(effect: Effect, intercepted: bool)

  /** A web URL that points at this device. */
  predicate IsLocal(url: string) {
    Contains(url, "localhost") || Contains(url, "127.0.0.1")
  }

  predicate IsWeb(url: string) {
    StartsWith(url, HttpScheme) || StartsWith(url, HttpsScheme)
  }

  /** `shouldOverrideUrlLoading(view, url)`, with the CALL_PHONE permission
      check passed in. Scheme tests are case-sensitive. */
  function ShouldOverrideUrlLoading(url: string, callPermissionGranted: bool): (r: Routing)
    ensures StartsWith(url, TelScheme) ==>
      r.intercepted && r.effect == (if callPermissionGranted then StartCall(url) else CallPermissionToast)
    ensures !StartsWith(url, TelScheme) && IsWeb(url) && !IsLocal(url) ==>
      r == Routing(ViewExternally(url), true)
    ensures !StartsWith(url, TelScheme) && (!IsWeb(url) || IsLocal(url)) ==>
      r == Routing(LoadInWebView, false)
  {
    if StartsWith(url, TelScheme) then
      Routing(if callPermissionGranted then StartCall(url) else CallPermissionToast, true)
    else if StartsWith(url, HttpScheme) || StartsWith(url, HttpsScheme) then
      if !Contains(url, "localhost") && !Contains(url, "127.0.0.1") then
        Routing(ViewExternally(url), true)
      else
        Routing(LoadInWebView, false)
    else
      Routing(LoadInWebView, false)
  }

  /** The callback returns true exactly when the URL leaves the WebView,
      and the CALL_PHONE permission only matters for tel: URLs. */
  lemma InterceptedIffLeavesWebView(url: string, granted: bool)
    ensures ShouldOverrideUrlLoading(url, granted).intercepted <==>
            ShouldOverrideUrlLoading(url, granted).effect != LoadInWebView
    ensures !StartsWith(url, TelScheme) ==>
            ShouldOverrideUrlLoading(url, granted) == ShouldOverrideUrlLoading(url, !granted)
  {
  }

  /** A call is placed only for a tel: URL and only with the permission;
      an external viewer is opened only for a non-local web URL. */
  lemma EffectsNeedTheirConditions(url: string, granted: bool)
    ensures ShouldOverrideUrlLoading(url, granted).effect.StartCall? ==> StartsWith(url, TelScheme) && granted
    ensures ShouldOverrideUrlLoading(url, granted).effect.ViewExternally? ==> IsWeb(url) && !IsLocal(url)
  {
  }

  /** The tel: test comes first: every URL that starts with "tel:" is
      intercepted and is never opened externally, even when it also looks
      like a non-local web URL (as "tel:http://example.com" does); it
      places a call exactly when the permission is granted and otherwise
      shows the permission toast. */
  lemma TelTakesPriority(url: string, granted: bool)
    requires StartsWith(url, TelScheme)
    ensures var r := ShouldOverrideUrlLoading(url, granted);
      && r.intercepted
      && !r.effect.ViewExternally?
      && (r.effect.StartCall? || r.effect == CallPermissionToast)
      && (r.effect.StartCall? <==> granted)
  {
  }

  /** Concrete routings: a remote https page leaves the app, the local
      development server stays inside, and the bundled asset stays inside. */
  lemma RoutingExamples(granted: bool)
    ensures ShouldOverrideUrlLoading("https://www.nhs.uk", granted) == Routing(ViewExternally("https://www.nhs.uk"), true)
    ensures !ShouldOverrideUrlLoading("http://localhost:8080/", granted).intercepted
    ensures !ShouldOverrideUrlLoading("file:///android_asset/medilink/index.html", granted).intercepted
  {
    var remote := "https://www.nhs.uk";
    assert remote[..8] == HttpsScheme;
    DiffersFromPrefix(remote, TelScheme, 0);
    MissingFirstCharNotContained(remote, "localhost");
    MissingFirstCharNotContained(remote, "127.0.0.1");

    var local := "http://localhost:8080/";
    DiffersFromPrefix(local, TelScheme, 0);
    assert local[7..16] == "localhost";
    assert OccursAt(local, "localhost", 7);

    var asset := "file:///android_asset/medilink/index.html";
    DiffersFromPrefix(asset, TelScheme, 0);
    DiffersFromPrefix(asset, HttpScheme, 0);
    DiffersFromPrefix(asset, HttpsScheme, 0);
  }
}
