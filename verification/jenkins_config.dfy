/**
 * Validation of one untyped configuration entry into the typed request used
 * to contact a CI instance. The settings loader lower-cases keys, so the
 * three keys looked up are `jenkinsurl`, `username` and `password`.
 */
module JenkinsConfig {
  import opened Outcomes
  import opened JenkinsModel

  /** A value held under a key of a settings map: a string or anything else. */
  datatype SettingValue = Text(s: string) | NonText

  /** One untyped configuration entry: a string-keyed map or any other value. */
  datatype ConfigEntry = NotMap | Settings(m: map<string, SettingValue>)

  const UrlKey := "jenkinsurl"
  const UsernameKey := "username"
  const PasswordKey := "password"

  const ErrNotMap := "invalid jenkins config: not a map"
  const ErrUrl := "invalid jenkins config: missing or invalid jenkinsurl"
  const ErrUsername := "invalid jenkins config: missing or invalid username"
  const ErrPassword := "invalid jenkins config: missing or invalid password"

  /** The key is present and holds a non-empty string. */
  predicate Present(m: map<string, SettingValue>, key: string) {
    key in m && m[key].Text? && m[key].s != ""
  }

  /** Go's checked string assertion: the string under `key`, or "" when absent or not a string. */
  function StringAt(m: map<string, SettingValue>, key: string): (s: string)
    ensures Present(m, key) <==> s != ""
    ensures s != "" ==> m[key] == Text(s)
  {
    if key in m && m[key].Text? then m[key].s else ""
  }

  /**
   * The ordered validator: not-a-map first, then the URL, the user name and
   * the password, the first failing check deciding the error.
   */
  function GetJenkinsConfig(entry: ConfigEntry): (r: Result<JenkinsJobsRequest>)
    ensures entry.NotMap? ==> r == Err(ErrNotMap)
    ensures entry.Settings? ==>
      (r.Ok? <==> Present(entry.m, UrlKey) && Present(entry.m, UsernameKey) && Present(entry.m, PasswordKey))
    ensures entry.Settings? && !Present(entry.m, UrlKey) ==> r == Err(ErrUrl)
    ensures entry.Settings? && Present(entry.m, UrlKey) && !Present(entry.m, UsernameKey) ==> r == Err(ErrUsername)
    ensures entry.Settings? && Present(entry.m, UrlKey) && Present(entry.m, UsernameKey) && !Present(entry.m, PasswordKey)
      ==> r == Err(ErrPassword)
    ensures r.Ok? ==>
      && entry.m[UrlKey] == Text(r.value.jenkinsURL)
      && entry.m[UsernameKey] == Text(r.value.base.username)
      && entry.m[PasswordKey] == Text(r.value.base.password)
      && r.value.base.jenkinsName == ""
  {
    match entry
    case NotMap => Err(ErrNotMap)
    case Settings(m) =>
      var url := StringAt(m, UrlKey);
      if url == "" then Err(ErrUrl)
      else
        var username := StringAt(m, UsernameKey);
        if username == "" then Err(ErrUsername)
        else
          var password := StringAt(m, PasswordKey);
          if password == "" then Err(ErrPassword)
          else Ok(JenkinsJobsRequest(url, JenkinsBaseRequest("", username, password)))
  }

  /** The settings map that a request with the given fields would be written as. */
  function AsSettings(req: JenkinsJobsRequest): map<string, SettingValue> {
    map[UrlKey := Text(req.jenkinsURL), UsernameKey := Text(req.base.username),
        PasswordKey := Text(req.base.password)]
  }

  /** Writing a request out as settings and validating them gives the request back, whatever other keys sit beside it. */
  lemma RoundTrip(req: JenkinsJobsRequest, extra: map<string, SettingValue>)
    requires req.jenkinsURL != "" && req.base.username != "" && req.base.password != ""
    requires req.base.jenkinsName == ""
    ensures GetJenkinsConfig(Settings(extra + AsSettings(req))) == Ok(req)
  {
    var m := extra + AsSettings(req);
    assert m[UrlKey] == Text(req.jenkinsURL);
    assert m[UsernameKey] == Text(req.base.username);
    assert m[PasswordKey] == Text(req.base.password);
  }

  /** Only the three looked-up keys matter: maps that agree on them validate alike. */
  lemma OtherKeysIgnored(m1: map<string, SettingValue>, m2: map<string, SettingValue>)
    requires forall k :: k in {UrlKey, UsernameKey, PasswordKey} ==> (k in m1 <==> k in m2)
    requires forall k :: k in {UrlKey, UsernameKey, PasswordKey} && k in m1 ==> m1[k] == m2[k]
    ensures GetJenkinsConfig(Settings(m1)) == GetJenkinsConfig(Settings(m2))
  {
    assert StringAt(m1, UrlKey) == StringAt(m2, UrlKey);
    assert StringAt(m1, UsernameKey) == StringAt(m2, UsernameKey);
    assert StringAt(m1, PasswordKey) == StringAt(m2, PasswordKey);
  }
}
