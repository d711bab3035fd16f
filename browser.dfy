/**
 * The two decisions taken before a browser session is used: how the browser
 * is pointed at a proxy, and whether the page asks for a login. The page itself
 * is an abstract sequence of observations, one per probe.
 */
module Browser {
  import opened Wrappers
  import opened PyText

  /**
   * One look at the page: whether the "추천" (recommended) marker, the
   * "사용자 이름으로 로그인" link and the plain "로그인" link are visible, or
   * `Broken` when a page call raised.
   */
  datatype Glimpse = Glimpse(recommend: bool, usernameLink: bool, loginLink: bool) | Broken

  /** Neither the logged-in marker nor a login link: the probe has to look again. */
  predicate Ambiguous(g: Glimpse) {
    g.Glimpse? && !g.recommend && !g.usernameLink && !g.loginLink
  }

  const MaxProbes := 10

  /**
   * The scheduler's `is_login_required`: up to ten looks at the page. The
   * marker means logged in; a login link, an exception or ten inconclusive
   * looks all mean a login is required. `looks` is the number of looks taken.
   */
  method IsLoginRequired(page: nat -> Glimpse) returns (required: bool, looks: nat)
    ensures 1 <= looks <= MaxProbes
    ensures forall k | 0 <= k < looks - 1 :: Ambiguous(page(k))
    ensures looks < MaxProbes ==> !Ambiguous(page(looks - 1))
    ensures !required <==> page(looks - 1).Glimpse? && page(looks - 1).recommend
    ensures (forall k | 0 <= k < MaxProbes :: Ambiguous(page(k))) ==> required && looks == MaxProbes
  {
    var attempt := 0;
    while attempt < MaxProbes
      invariant 0 <= attempt <= MaxProbes
      invariant forall k | 0 <= k < attempt :: Ambiguous(page(k))
    {
      var g := page(attempt);
      if g.Broken? {
        return true, attempt + 1;
      }
      if g.recommend {
        return false, attempt + 1;
      }
      if g.usernameLink || g.loginLink {
        return true, attempt + 1;
      }
      attempt := attempt + 1;
    }
    return true, MaxProbes;
  }

  /** What the multi-account window's single look at the "로그인" button sees. */
  datatype ButtonGlimpse = Shown(visible: bool) | Raised

  /**
   * The multi-account window's `is_login_required`: the login button's
   * visibility, and `false` when looking raised, the opposite of the
   * scheduler's fail-safe choice.
   */
  function IsLoginRequiredOnce(button: ButtonGlimpse): (required: bool)
    ensures required <==> button == Shown(true)
  {
    match button
    case Shown(v) => v
    case Raised => false
  }

  /** On a page that fails, the two probes reach opposite verdicts. */
  method BrokenPageVerdicts() returns (scheduler: bool, window: bool)
    ensures scheduler && !window
  {
    var looks;
    scheduler, looks := IsLoginRequired(k => Broken);
    window := IsLoginRequiredOnce(Raised);
  }

  /**
   * The `proxy` entry of `launch_user_context`: present only when the server is
   * not blank; the user name and password are added only when not blank; every
   * value is stripped.
   */
  method ProxyConfig(server: string, username: string, password: string)
    returns (proxy: Option<map<string, string>>)
    ensures proxy.None? <==> AllSpace(server)
    ensures proxy.Some? ==> proxy.value.Keys <= {"server", "username", "password"}
    ensures proxy.Some? ==> "server" in proxy.value && proxy.value["server"] == Strip(server)
    ensures proxy.Some? ==> ("username" in proxy.value <==> !AllSpace(username))
    ensures proxy.Some? && "username" in proxy.value ==> proxy.value["username"] == Strip(username)
    ensures proxy.Some? ==> ("password" in proxy.value <==> !AllSpace(password))
    ensures proxy.Some? && "password" in proxy.value ==> proxy.value["password"] == Strip(password)
  {
    StripBlank(server);
    StripBlank(username);
    StripBlank(password);
    if server == "" || Strip(server) == "" {
      return None;
    }
    var config := map["server" := Strip(server)];
    if username != "" && Strip(username) != "" {
      config := config["username" := Strip(username)];
    }
    if password != "" && Strip(password) != "" {
      config := config["password" := Strip(password)];
    }
    return Some(config);
  }
}
