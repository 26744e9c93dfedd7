/** The configuration checks of the Google DI extension: which credential
    syntax is used, the shape of the credentials, the access type, and the
    return destination (a URL or a presenter name). */
module Config {
  import opened Php

  /** The extension's defaults; the configured options override them. */
  const Defaults: map<string, Value> := map[
    "appId" := Null,
    "appSecret" := Null,
    "clientId" := Null,
    "clientSecret" := Null,
    "apiKey" := Null,
    "clearAllWithLogout" := Bool(true),
    "scopes" := DefaultScopes,
    "accessType" := Str("online"),
    "returnUri" := Null,
    "debugger" := Str("%debugMode%")]

  /** The scopes asked for when none are configured. */
  const DefaultScopes: Value := Arr(map[Index(0) := Str("profile"), Index(1) := Str("email")])

  const AppSecretLength := 24
  const ApiKeyLength := 39

  /** What URL parsing tells about a string: whether it looks like a URL,
      and whether it has a scheme and a path. */
  datatype UrlShape = UrlShape(isUrl: bool, hasScheme: bool, hasPath: bool)

  /** Where to send the user back after authentication. */
  datatype Destination =
    | Url(uri: string)                   // an absolute URL
    | Presenter(name: string)            // a presenter name
    | PresenterWith(name: string, args: Value)  // a presenter name with arguments

  /** What the extension registers. */
  datatype Setup = Setup(
    config: map<string, Value>,
    appId: string,
    appSecret: string,
    apiKey: Option<string>,
    scopes: Value,
    accessType: string,
    returnDestination: Option<Destination>)

  datatype ConfigError =
    | MixedSyntax
    | InvalidAppId
    | InvalidAppSecret
    | InvalidApiKey
    | InvalidScopes
    | InvalidAccessType
    | NotPresenterName(expression: string)
    | MissingScheme
    | MissingPath
    | NotAString    // the TypeError `preg_match` raises, under strict types, for a non-string

  // ---------------------------------------------------------------------
  // Presenter names

  predicate IsAlnum(c: char) {
    'a' <= c <= 'z' || 'A' <= c <= 'Z' || '0' <= c <= '9'
  }

  predicate IsNameChar(c: char) {
    IsAlnum(c) || c == ':'
  }

  /** Every character is a letter, a digit or a colon. */
  predicate AllNameChars(w: string) {
    w == [] || (IsNameChar(w[0]) && AllNameChars(w[1..]))
  }

  /** Drops an optional leading "//". */
  function StripSlashes(s: string): string {
    if |s| >= 2 && s[0] == '/' && s[1] == '/' then s[2..] else s
  }

  /** Drops an optional leading ":". */
  function StripColon(t: string): string {
    if |t| >= 1 && t[0] == ':' then t[1..] else t
  }

  /** Drops an optional leading "//" and then an optional ":". */
  function StripPrefixes(s: string): string {
    StripColon(StripSlashes(s))
  }

  /** A letter or digit followed by at least one letter, digit or colon. */
  predicate IsNameBody(w: string) {
    |w| >= 2 && IsAlnum(w[0]) && AllNameChars(w[1..])
  }

  /** `isPresenterName`: the pattern `^(?://)?:?[a-z0-9][a-z0-9:]+$`,
      case-insensitive; `$` also matches before a final newline. */
  predicate IsPresenterName(s: string) {
    IsNameBody(StripPrefixes(s))
    || (|s| > 0 && s[|s| - 1] == '\n' && IsNameBody(StripPrefixes(s[..|s| - 1])))
  }

  /** The same language written as a decomposition: an optional "//", an
      optional ":", a letter or digit, one or more letters, digits or
      colons, and an optional final newline. */
  ghost predicate Decomposes(s: string, slashes: string, colon: string, body: string, newline: string) {
    && (slashes == "" || slashes == "//")
    && (colon == "" || colon == ":")
    && (newline == "" || newline == "\n")
    && |body| >= 2 && IsAlnum(body[0])
    && NameTail(body)
    && s == slashes + colon + body + newline
  }

  /** Every character after the first is a letter, a digit or a colon. */
  predicate NameTail(body: string) {
    forall i :: 1 <= i < |body| ==> IsNameChar(body[i])
  }

  ghost predicate PresenterNameForm(s: string) {
    exists slashes, colon, body, newline :: Decomposes(s, slashes, colon, body, newline)
  }

  lemma {:induction false} AllNameCharsIff(w: string)
    ensures AllNameChars(w) <==> forall i :: 0 <= i < |w| ==> IsNameChar(w[i])
  {
    if w != [] {
      AllNameCharsIff(w[1..]);
      assert forall i :: 1 <= i < |w| ==> w[1..][i - 1] == w[i];
    }
  }

  /** Stripping the prefixes of "//" + ":" + body (with either part
      absent) yields the body, because a body starts with a letter or
      digit. */
  lemma StripsToBody(slashes: string, colon: string, body: string)
    requires slashes == "" || slashes == "//"
    requires colon == "" || colon == ":"
    requires |body| >= 1 && IsAlnum(body[0])
    ensures StripPrefixes(slashes + colon + body) == body
  {
    var s := slashes + colon + body;
    var t := StripSlashes(s);
    assert t == colon + body by {
      if slashes == "//" {
        assert s[..2] == "//" && s[2..] == colon + body;
      } else {
        assert s == colon + body;
        assert |s| >= 1 && s[0] != '/';
      }
    }
    if colon == ":" {
      assert t[0] == ':' && t[1..] == body;
    } else {
      assert t == body && t[0] != ':';
    }
  }

  /** Witnesses of the decomposition for a string the matcher accepts. */
  lemma BodyDecomposes(s: string) returns (slashes: string, colon: string)
    requires IsNameBody(StripPrefixes(s))
    ensures Decomposes(s, slashes, colon, StripPrefixes(s), "")
  {
    var t;
    slashes, t := SplitSlashes(s);
    var body;
    colon, body := SplitColon(t);
    BodyChars(body);
    var w := slashes + colon + body;
    assert w + "" == w;
    assert w == slashes + t;
    assert Decomposes(s, slashes, colon, body, "");
  }

  /** The optional leading "//" and what follows it. */
  lemma SplitSlashes(s: string) returns (slashes: string, t: string)
    ensures slashes == "" || slashes == "//"
    ensures s == slashes + t
    ensures t == StripSlashes(s)
  {
    if |s| >= 2 && s[0] == '/' && s[1] == '/' {
      slashes, t := "//", s[2..];
      assert s == [s[0], s[1]] + s[2..];
    } else {
      slashes, t := "", s;
    }
  }

  /** The optional leading ":" and what follows it. */
  lemma SplitColon(t: string) returns (colon: string, body: string)
    ensures colon == "" || colon == ":"
    ensures t == colon + body
    ensures body == StripColon(t)
  {
    if |t| >= 1 && t[0] == ':' {
      colon, body := ":", t[1..];
      assert t == [t[0]] + t[1..];
    } else {
      colon, body := "", t;
    }
  }

  /** A body's characters after the first are letters, digits or colons. */
  lemma BodyChars(body: string)
    requires IsNameBody(body)
    ensures NameTail(body)
  {
    AllNameCharsIff(body[1..]);
    forall i | 1 <= i < |body| ensures IsNameChar(body[i]) {
      assert body[1..][i - 1] == body[i];
    }
  }

  /** Every string the matcher accepts has the decomposed form. */
  lemma MatchHasForm(s: string)
    requires IsPresenterName(s)
    ensures PresenterNameForm(s)
  {
    if IsNameBody(StripPrefixes(s)) {
      var slashes, colon := BodyDecomposes(s);
    } else {
      var slashes, colon, body := NewlineDecomposes(s);
    }
  }

  /** Witnesses of the decomposition for a string accepted through its
      final newline. */
  lemma NewlineDecomposes(s: string) returns (slashes: string, colon: string, body: string)
    requires |s| > 0 && s[|s| - 1] == '\n' && IsNameBody(StripPrefixes(s[..|s| - 1]))
    ensures Decomposes(s, slashes, colon, body, "\n")
  {
    var u := s[..|s| - 1];
    slashes, colon := BodyDecomposes(u);
    body := StripPrefixes(u);
    assert s == u + "\n";
  }

  /** A body of the decomposed form passes the body test of the matcher. */
  lemma BodyMatches(slashes: string, colon: string, body: string)
    requires slashes == "" || slashes == "//"
    requires colon == "" || colon == ":"
    requires |body| >= 2 && IsAlnum(body[0])
    requires NameTail(body)
    ensures IsNameBody(StripPrefixes(slashes + colon + body))
  {
    StripsToBody(slashes, colon, body);
    AllNameCharsIff(body[1..]);
    forall i | 0 <= i < |body[1..]| ensures IsNameChar(body[1..][i]) {
      assert body[1..][i] == body[i + 1];
    }
  }

  /** Every string of the decomposed form is accepted by the matcher. */
  lemma FormMatches(s: string)
    requires PresenterNameForm(s)
    ensures IsPresenterName(s)
  {
    var slashes, colon, body, newline :| Decomposes(s, slashes, colon, body, newline);
    BodyMatches(slashes, colon, body);
    if newline == "\n" {
      assert s[..|s| - 1] == slashes + colon + body;
    } else {
      assert s == slashes + colon + body;
    }
  }

  /** The matcher accepts exactly the strings of the decomposed form. */
  lemma PresenterNameMatchesForm(s: string)
    ensures IsPresenterName(s) <==> PresenterNameForm(s)
  {
    if IsPresenterName(s) {
      MatchHasForm(s);
    }
    if PresenterNameForm(s) {
      FormMatches(s);
    }
  }

  /** A presenter name holds at least two characters after its prefixes,
      and every character after them is a letter, a digit or a colon (or
      the one final newline). */
  lemma PresenterNameShape(s: string)
    requires IsPresenterName(s)
    ensures |s| >= 2
    ensures IsAlnum(s[0]) || s[0] == ':' || s[..2] == "//"
  {
    PresenterNameMatchesForm(s);
    var slashes, colon, body, newline :| Decomposes(s, slashes, colon, body, newline);
    if slashes == "" && colon == "" {
      assert s[0] == body[0];
    } else if slashes == "//" {
      assert s[..2] == "//";
    } else {
      assert s[0] == ':';
    }
  }

  // ---------------------------------------------------------------------
  // The return destination

  /** The checks on `returnUri`: an entity must name a presenter; a
      URL-like string must have a scheme and a path; any other string must
      be a presenter name; null sets no destination. Any other value
      (a boolean, an integer, an array) reaches the URL test, where
      `preg_match` rejects it with a TypeError. */
  function ReturnDestination(returnUri: Value, shapeOf: string -> UrlShape): (r: Result<Option<Destination>, ConfigError>)
    ensures returnUri.Null? ==> r == Success(None)
    ensures returnUri.NeonEntity? ==>
      r == if IsPresenterName(returnUri.value) then Success(Some(PresenterWith(returnUri.value, returnUri.attributes)))
           else Failure(NotPresenterName(returnUri.value))
    ensures returnUri.Statement? ==>
      r == if IsPresenterName(returnUri.entity) then Success(Some(PresenterWith(returnUri.entity, returnUri.arguments)))
           else Failure(NotPresenterName(returnUri.entity))
    ensures returnUri.Bool? || returnUri.Int? || returnUri.Arr? ==> r == Failure(NotAString)
    ensures returnUri.Str? && shapeOf(returnUri.s).isUrl ==>
      (r.Success? <==> shapeOf(returnUri.s).hasScheme && shapeOf(returnUri.s).hasPath)
    ensures returnUri.Str? && shapeOf(returnUri.s).isUrl && !shapeOf(returnUri.s).hasScheme ==>
      r == Failure(MissingScheme)
    ensures returnUri.Str? && !shapeOf(returnUri.s).isUrl ==> (r.Success? <==> IsPresenterName(returnUri.s))
    ensures returnUri.Str? && shapeOf(returnUri.s).isUrl && shapeOf(returnUri.s).hasScheme && shapeOf(returnUri.s).hasPath ==>
      r == Success(Some(Url(returnUri.s)))
    ensures returnUri.Str? && !shapeOf(returnUri.s).isUrl && IsPresenterName(returnUri.s) ==>
      r == Success(Some(Presenter(returnUri.s)))
    ensures r.Success? && r.value.Some? && r.value.value.Url? ==> returnUri == Str(r.value.value.uri)
    ensures r.Success? && r.value.Some? && !r.value.value.Url? ==> IsPresenterName(r.value.value.name)
  {
    match returnUri
    case NeonEntity(name, attributes) =>
      if !IsPresenterName(name) then Failure(NotPresenterName(name))
      else Success(Some(PresenterWith(name, attributes)))
    case Statement(name, arguments) =>
      if !IsPresenterName(name) then Failure(NotPresenterName(name))
      else Success(Some(PresenterWith(name, arguments)))
    case Null => Success(None)
    case Str(uri) =>
      var shape := shapeOf(uri);
      if shape.isUrl then
        if !shape.hasScheme then Failure(MissingScheme)
        else if !shape.hasPath then Failure(MissingPath)
        else Success(Some(Url(uri)))
      else if !IsPresenterName(uri) then Failure(NotPresenterName(uri))
      else Success(Some(Presenter(uri)))
    case _ => Failure(NotAString)
  }

  // ---------------------------------------------------------------------
  // Loading the configuration

  /** The application-style keys `appId`/`appSecret` are used. */
  predicate UsesAppSyntax(raw: map<string, Value>) {
    Isset(raw, "appId") || Isset(raw, "appSecret")
  }

  /** Both credential syntaxes are used at once. */
  predicate MixedCredentialSyntax(raw: map<string, Value>) {
    UsesAppSyntax(raw) && (Isset(raw, "clientId") || Isset(raw, "clientSecret"))
  }

  /** Nette's list: an array keyed 0 .. n-1. */
  predicate IsList(v: Value) {
    v.Arr? && forall k :: k in v.entries ==> k.Index? && 0 <= k.n < |v.entries|
  }

  /** The app id is a string. */
  predicate ValidAppId(config: map<string, Value>) {
    "appId" in config && config["appId"].Str?
  }

  /** The app secret is a string of 24 characters. */
  predicate ValidAppSecret(config: map<string, Value>) {
    "appSecret" in config && config["appSecret"].Str? && |config["appSecret"].s| == AppSecretLength
  }

  /** The API key is null or a string of 39 characters. */
  predicate ValidApiKey(config: map<string, Value>) {
    "apiKey" in config && (config["apiKey"].Null? || (config["apiKey"].Str? && |config["apiKey"].s| == ApiKeyLength))
  }

  /** The scopes form a list. */
  predicate ValidScopes(config: map<string, Value>) {
    "scopes" in config && IsList(config["scopes"])
  }

  /** The credentials and scopes have the required shapes. */
  predicate WellShaped(config: map<string, Value>) {
    ValidAppId(config) && ValidAppSecret(config) && ValidApiKey(config) && ValidScopes(config)
  }

  /** The options every merged configuration holds. */
  predicate HasOptions(config: map<string, Value>) {
    && "appId" in config && "appSecret" in config && "apiKey" in config
    && "scopes" in config && "accessType" in config && "returnUri" in config
  }

  /** The defaults hold every checked option: both syntaxes of the
      credentials, the API key and the return URI default to null, the
      access type to `online`, the scopes to `profile`, `email`; logout
      clears the session and the debugger follows debug mode. */
  lemma DefaultsHoldOptions()
    ensures HasOptions(Defaults)
    ensures Defaults["appId"] == Null && Defaults["appSecret"] == Null
    ensures Defaults["clientId"] == Null && Defaults["clientSecret"] == Null
    ensures Defaults["apiKey"] == Null && Defaults["returnUri"] == Null
    ensures Defaults["accessType"] == Str("online")
    ensures Defaults["scopes"] == DefaultScopes
    ensures Defaults["clearAllWithLogout"] == Bool(true) && Defaults["debugger"] == Str("%debugMode%")
  {
  }

  /** Nette's merge of the configured options over the defaults, at the
      top level: a configured value wins, except that a configured null
      keeps a default that is an array. */
  function MergeOver(config: map<string, Value>, defaults: map<string, Value>): (m: map<string, Value>)
    ensures m.Keys == config.Keys + defaults.Keys
    ensures forall k :: k in config && !(config[k].Null? && k in defaults && defaults[k].Arr?) ==> m[k] == config[k]
    ensures forall k :: k in defaults && (k !in config || (config[k].Null? && defaults[k].Arr?)) ==> m[k] == defaults[k]
  {
    map k | k in config.Keys + defaults.Keys ::
      if k in config && !(config[k].Null? && k in defaults && defaults[k].Arr?) then config[k] else defaults[k]
  }

  /** The configuration an accepted `raw` configuration ends in: `raw`
      merged over the defaults, and, with the client-style syntax, the
      client keys renamed to the application keys. */
  function Effective(raw: map<string, Value>): (config: map<string, Value>)
    ensures HasOptions(config)
  {
    var merged := MergeOver(raw, Defaults);
    MergedHoldsOptions(raw);
    if UsesAppSyntax(raw) then merged else RenameClientKeys(merged, raw)
  }

  /** The merged options hold every option the defaults hold. */
  lemma MergedHoldsOptions(raw: map<string, Value>)
    ensures HasOptions(MergeOver(raw, Defaults))
    ensures MergeOver(raw, Defaults)["appId"] == Lookup(raw, "appId")
  {
    DefaultsHoldOptions();
  }

  /** The client-style credentials moved to the application-style keys. */
  function RenameClientKeys(config: map<string, Value>, raw: map<string, Value>): (r: map<string, Value>)
    requires HasOptions(config)
    ensures HasOptions(r)
    ensures "clientId" !in r && "clientSecret" !in r
    ensures r["appId"] == Lookup(raw, "clientId") && r["appSecret"] == Lookup(raw, "clientSecret")
    ensures forall k :: k in config && k !in {"appId", "appSecret", "clientId", "clientSecret"} ==> k in r && r[k] == config[k]
  {
    config["appId" := Lookup(raw, "clientId")]["appSecret" := Lookup(raw, "clientSecret")] - {"clientId", "clientSecret"}
  }

  /** `scopes: null` keeps the default scopes, which form a list. */
  lemma NullScopesKeepDefault(raw: map<string, Value>)
    requires "scopes" in raw && raw["scopes"] == Null
    ensures Effective(raw)["scopes"] == DefaultScopes
    ensures IsList(Effective(raw)["scopes"])
  {
    var merged := MergeOver(raw, Defaults);
    DefaultsHoldOptions();
    assert merged["scopes"] == DefaultScopes;
    if !UsesAppSyntax(raw) {
      MergedHoldsOptions(raw);
      assert RenameClientKeys(merged, raw)["scopes"] == merged["scopes"];
    }
    DefaultScopesAreList();
  }

  /** The default scopes form a list. */
  lemma DefaultScopesAreList()
    ensures IsList(DefaultScopes)
  {
    var e := DefaultScopes.entries;
    assert e.Keys == {Index(0), Index(1)};
    assert |e.Keys| == 2;
  }

  /** The access type is one of the two the API client knows. */
  predicate AllowedAccessType(config: map<string, Value>) {
    "accessType" in config && config["accessType"] in {Str("online"), Str("offline")}
  }

  /** The return destination passes its checks. */
  predicate AcceptedReturnUri(config: map<string, Value>, shapeOf: string -> UrlShape) {
    "returnUri" in config && ReturnDestination(config["returnUri"], shapeOf).Success?
  }

  /** The error the checks of `loadConfiguration` report, each check
      being made only once the earlier ones pass: app id, secret, API key,
      scopes, access type, then the return destination; None when every
      check passes. */
  function FirstError(config: map<string, Value>, shapeOf: string -> UrlShape): (e: Option<ConfigError>)
    requires HasOptions(config)
    ensures e.None? <==> WellShaped(config) && AllowedAccessType(config) && AcceptedReturnUri(config, shapeOf)
    ensures e.Some? ==> e.value != MixedSyntax
    ensures !ValidAppId(config) ==> e == Some(InvalidAppId)
    ensures ValidAppId(config) && !ValidAppSecret(config) ==> e == Some(InvalidAppSecret)
    ensures ValidAppId(config) && ValidAppSecret(config) && !ValidApiKey(config) ==> e == Some(InvalidApiKey)
    ensures ValidAppId(config) && ValidAppSecret(config) && ValidApiKey(config) && !ValidScopes(config) ==>
      e == Some(InvalidScopes)
    ensures WellShaped(config) && !AllowedAccessType(config) ==> e == Some(InvalidAccessType)
    ensures WellShaped(config) && AllowedAccessType(config) && !AcceptedReturnUri(config, shapeOf) ==>
      e == Some(ReturnDestination(config["returnUri"], shapeOf).error)
  {
    if !ValidAppId(config) then Some(InvalidAppId)
    else if !ValidAppSecret(config) then Some(InvalidAppSecret)
    else if !ValidApiKey(config) then Some(InvalidApiKey)
    else if !ValidScopes(config) then Some(InvalidScopes)
    else if !AllowedAccessType(config) then Some(InvalidAccessType)
    else
      match ReturnDestination(config["returnUri"], shapeOf)
      case Failure(error) => Some(error)
      case Success(_) => None
  }

  /** What an accepted setup registers: the app id, the 24-character
      secret, the 39-character API key or none, the scope list, the
      allowed access type and the checked return destination, each taken
      from the setup's configuration. */
  predicate Registers(setup: Setup, shapeOf: string -> UrlShape) {
    && HasOptions(setup.config)
    && Str(setup.appId) == setup.config["appId"]
    && Str(setup.appSecret) == setup.config["appSecret"] && |setup.appSecret| == AppSecretLength
    && (setup.apiKey.None? <==> setup.config["apiKey"].Null?)
    && (setup.apiKey.Some? ==> Str(setup.apiKey.value) == setup.config["apiKey"] && |setup.apiKey.value| == ApiKeyLength)
    && setup.scopes == setup.config["scopes"] && IsList(setup.scopes)
    && Str(setup.accessType) == setup.config["accessType"] && setup.accessType in {"online", "offline"}
    && Success(setup.returnDestination) == ReturnDestination(setup.config["returnUri"], shapeOf)
  }

  /** The checks `loadConfiguration` makes on the merged options, in the
      source's order, each failure being fatal; on success, what is
      registered. */
  method CheckOptions(config: map<string, Value>, shapeOf: string -> UrlShape) returns (r: Result<Setup, ConfigError>)
    requires HasOptions(config)
    ensures r.Failure? ==> r.error != MixedSyntax
    ensures r.Success? <==> WellShaped(config) && AllowedAccessType(config) && AcceptedReturnUri(config, shapeOf)
    ensures WellShaped(config) && !AllowedAccessType(config) ==> r == Failure(InvalidAccessType)
    ensures !config["appId"].Str? ==> r == Failure(InvalidAppId)
    ensures r.Failure? ==> Some(r.error) == FirstError(config, shapeOf)
    ensures r.Success? ==> r.value.config == config && Registers(r.value, shapeOf)
  {
    if !config["appId"].Str? {
      return Failure(InvalidAppId);
    }
    if !(config["appSecret"].Str? && |config["appSecret"].s| == AppSecretLength) {
      return Failure(InvalidAppSecret);
    }
    if !(config["apiKey"].Null? || (config["apiKey"].Str? && |config["apiKey"].s| == ApiKeyLength)) {
      return Failure(InvalidApiKey);
    }
    if !IsList(config["scopes"]) {
      return Failure(InvalidScopes);
    }
    var accessType := config["accessType"];
    if !(accessType == Str("online") || accessType == Str("offline")) {
      return Failure(InvalidAccessType);
    }

    var destination := ReturnDestination(config["returnUri"], shapeOf);
    if destination.Failure? {
      return Failure(destination.error);
    }
    var apiKey := if config["apiKey"].Str? then Some(config["apiKey"].s) else None;
    return Success(Setup(config, config["appId"].s, config["appSecret"].s, apiKey,
                         config["scopes"], accessType.s, destination.value));
  }

  /** `loadConfiguration`: merges the options over the defaults, refuses
      mixed credential syntax, renames the client-style keys in place, and
      checks the result. */
  method LoadConfiguration(raw: map<string, Value>, shapeOf: string -> UrlShape) returns (r: Result<Setup, ConfigError>)
    ensures r == Failure(MixedSyntax) <==> MixedCredentialSyntax(raw)
    ensures r.Success? <==>
      && !MixedCredentialSyntax(raw)
      && WellShaped(Effective(raw))
      && AllowedAccessType(Effective(raw))
      && AcceptedReturnUri(Effective(raw), shapeOf)
    ensures (!MixedCredentialSyntax(raw) && WellShaped(Effective(raw)) && !AllowedAccessType(Effective(raw)))
      ==> r == Failure(InvalidAccessType)
    ensures r.Success? ==> r.value.config == Effective(raw)
    ensures r.Failure? && !MixedCredentialSyntax(raw) ==> Some(r.error) == FirstError(Effective(raw), shapeOf)
    ensures r.Success? && !UsesAppSyntax(raw) ==>
      && Str(r.value.appId) == Lookup(raw, "clientId")
      && Str(r.value.appSecret) == Lookup(raw, "clientSecret")
      && "clientId" !in r.value.config && "clientSecret" !in r.value.config
    ensures r.Success? && UsesAppSyntax(raw) ==> Str(r.value.appId) == Lookup(raw, "appId")
    ensures r.Success? ==> Registers(r.value, shapeOf)
  {
    var config := MergeOver(raw, Defaults);
    if Isset(raw, "appId") || Isset(raw, "appSecret") {
      if Isset(raw, "clientId") || Isset(raw, "clientSecret") {
        return Failure(MixedSyntax);
      }
      MergedHoldsOptions(raw);
    } else {
      config := config["appId" := Lookup(raw, "clientId")];
      config := config["appSecret" := Lookup(raw, "clientSecret")];
      config := config - {"clientId", "clientSecret"};
      MergedHoldsOptions(raw);
      assert config == RenameClientKeys(MergeOver(raw, Defaults), raw);
    }
    assert config == Effective(raw);
    r := CheckOptions(config, shapeOf);
  }
}
