/**
 * The backend's configuration state (`backend/config.js`): the refresh profiles,
 * API settings, encryption key and Google settings read from `config.yaml`, and
 * one user record per `users/config-<name>.json` file.
 *
 * Files are parameters: `config.yaml` arrives already parsed (`None` when it
 * cannot be read or parsed), the `users` directory as its list of file names,
 * and each user file through `read`, keyed by file name (`None` when it cannot
 * be read or is not JSON).
 */
module Config {
  import opened Maybe

  datatype RefreshProfile = RefreshProfile(name: string, weekday: seq<string>, weekend: seq<string>)

  /** The profile `getRefreshProfile` starts from: named "default", with no times. */
  const BuiltInDefault := RefreshProfile("default", [], [])

  // ---------------------------------------------------------------------------
  // getRefreshProfile

  /**
   * `refreshProfile.name == user.refresh`: a missing `refresh` setting is
   * `undefined`, which equals no profile name.
   */
  predicate Names(p: RefreshProfile, refresh: Option<string>) {
    refresh == Some(p.name)
  }

  /** The index of the first profile named `refresh`, if any. */
  function FirstNamed(profiles: seq<RefreshProfile>, refresh: Option<string>): (r: Option<nat>)
    ensures r.Some? ==>
              r.value < |profiles| && Names(profiles[r.value], refresh)
              && forall j :: 0 <= j < r.value ==> !Names(profiles[j], refresh)
    ensures r.None? ==> forall j :: 0 <= j < |profiles| ==> !Names(profiles[j], refresh)
  {
    if profiles == [] then None
    else if Names(profiles[0], refresh) then Some(0)
    else match FirstNamed(profiles[1..], refresh)
      case None => None
      case Some(k) => Some(k + 1)
  }

  /** The last profile named "default", or the built-in one when there is none. */
  function LastDefault(profiles: seq<RefreshProfile>): (p: RefreshProfile)
    ensures p.name == "default"
    ensures (forall j :: 0 <= j < |profiles| ==> profiles[j].name != "default") ==> p == BuiltInDefault
    ensures (exists j :: 0 <= j < |profiles| && profiles[j].name == "default") ==>
              exists j :: 0 <= j < |profiles| && p == profiles[j]
                && forall k :: j < k < |profiles| ==> profiles[k].name != "default"
  {
    if profiles == [] then BuiltInDefault
    else if profiles[|profiles| - 1].name == "default" then profiles[|profiles| - 1]
    else
      var p := LastDefault(profiles[..|profiles| - 1]);
      assert forall j :: 0 <= j < |profiles| - 1 ==> profiles[..|profiles| - 1][j] == profiles[j];
      p
  }

  /** The profile a user with setting `refresh` gets from `profiles`. */
  function ProfileFor(profiles: seq<RefreshProfile>, refresh: Option<string>): RefreshProfile {
    match FirstNamed(profiles, refresh)
    case Some(i) => profiles[i]
    case None => LastDefault(profiles)
  }

  /**
   * `getRefreshProfile`: the first profile whose name is the user's `refresh`
   * setting; failing that, the last profile named "default" among those scanned,
   * and the built-in default when there is none.
   */
  method GetRefreshProfile(profiles: seq<RefreshProfile>, refresh: Option<string>) returns (p: RefreshProfile)
    ensures p == ProfileFor(profiles, refresh)
    ensures FirstNamed(profiles, refresh).Some? ==> Names(p, refresh)
    ensures FirstNamed(profiles, refresh).None? ==> p.name == "default"
  {
    var defaultProfile := BuiltInDefault;
    for i := 0 to |profiles|
      invariant forall j :: 0 <= j < i ==> !Names(profiles[j], refresh)
      invariant defaultProfile == LastDefault(profiles[..i])
    {
      if Names(profiles[i], refresh) {
        assert FirstNamed(profiles, refresh) == Some(i);
        return profiles[i];
      }
      if profiles[i].name == "default" {
        defaultProfile := profiles[i];
      }
      assert profiles[..i + 1][..i] == profiles[..i];
    }
    assert profiles[..|profiles|] == profiles;
    return defaultProfile;
  }

  /** Whatever the settings, the profile is one of `profiles` or the built-in default. */
  lemma ProfileComesFromConfig(profiles: seq<RefreshProfile>, refresh: Option<string>)
    ensures ProfileFor(profiles, refresh) in profiles || ProfileFor(profiles, refresh) == BuiltInDefault
  {
    if FirstNamed(profiles, refresh).None? {
      var p := LastDefault(profiles);
      if exists j :: 0 <= j < |profiles| && profiles[j].name == "default" {
        var j :| 0 <= j < |profiles| && p == profiles[j];
      }
    }
  }

  // ---------------------------------------------------------------------------
  // User file names

  /** The filter in `loadConfig`: `file.startsWith("config-") && file.endsWith(".json")`. */
  predicate IsUserConfigFile(f: string) {
    |f| >= 7 && f[..7] == "config-" && |f| >= 5 && f[|f| - 5..] == ".json"
  }

  /** The file a user's record lives in: `"config-" + user + ".json"`. */
  function FileOfUser(user: string): string {
    "config-" + user + ".json"
  }

  /** The `-` ending the prefix cannot be a character of the suffix, so prefix and suffix never overlap. */
  lemma UserConfigFileLength(f: string)
    requires IsUserConfigFile(f)
    ensures |f| >= 12
  {
    var suffix := f[|f| - 5..];
    assert f[6] == '-';
    assert forall k :: 0 <= k < 5 ==> suffix[k] != '-';
  }

  /** `file.substring(7, file.length - 5)`: the user name between prefix and suffix. */
  function UserOfFile(f: string): (user: string)
    requires IsUserConfigFile(f)
    ensures |user| == |f| - 12
  {
    UserConfigFileLength(f);
    f[7..|f| - 5]
  }

  /** A listed file's user name leads back to that very file. */
  lemma FileUserRoundTrip(f: string)
    requires IsUserConfigFile(f)
    ensures FileOfUser(UserOfFile(f)) == f
  {
    UserConfigFileLength(f);
    assert f == f[..7] + f[7..|f| - 5] + f[|f| - 5..];
  }

  /** Every user's file passes the filter, and the name read back from it is the user's. */
  lemma UserFileRoundTrip(user: string)
    ensures IsUserConfigFile(FileOfUser(user))
    ensures UserOfFile(FileOfUser(user)) == user
  {
    var f := FileOfUser(user);
    assert f[..7] == "config-";
    assert f[|f| - 5..] == ".json";
  }

  // ---------------------------------------------------------------------------
  // The two file formats and their version gates

  /** `config.yaml`: API and Google settings as their JSON text. */
  datatype ConfigFile = ConfigFile(
    version: Option<string>, refresh: seq<RefreshProfile>,
    apiSettings: string, encryptionKey: string, googleSettings: string)

  /** `loadConfigFile`: only version "1.2" is accepted. */
  function LoadConfigFile(raw: Option<ConfigFile>): (r: Option<ConfigFile>)
    ensures r.Some? <==> raw.Some? && raw.value.version == Some("1.2")
    ensures r.Some? ==> r == raw
  {
    if raw.Some? && raw.value.version == Some("1.2") then raw else None
  }

  /**
   * A user file as stored: `webuntis_password` is the encrypted password, ""
   * when missing; `lastRefresh` is `None` when missing.
   */
  datatype UserFile = UserFile(
    version: Option<string>, active: bool, password: string,
    refresh: Option<string>, lastRefresh: Option<int>)

  /** A user record in memory, as `loadUserFile` returns it. */
  datatype UserConfig = UserConfig(
    active: bool, password: string, refresh: Option<string>,
    refreshProfile: RefreshProfile, lastRefresh: int)

  /**
   * `loadUserFile`: only version "1.0" is accepted; the record gains its refresh
   * profile under the current `profiles`, and `lastRefresh` becomes a date,
   * the epoch when it was missing.
   */
  function LoadUserFile(raw: Option<UserFile>, profiles: seq<RefreshProfile>): (r: Option<UserConfig>)
    ensures r.Some? <==> raw.Some? && raw.value.version == Some("1.0")
  {
    if raw.None? || raw.value.version != Some("1.0") then None
    else
      var d := raw.value;
      Some(UserConfig(d.active, d.password, d.refresh, ProfileFor(profiles, d.refresh), d.lastRefresh.GetOr(0)))
  }

  /**
   * `saveUserFile`'s copy: the record without `refreshProfile` (and without
   * `refreshProfiles`, which a record never carries here). A record in memory came
   * through `loadUserFile`, so its version is "1.0"; the date is written out in full.
   */
  function Stripped(u: UserConfig): UserFile {
    UserFile(Some("1.0"), u.active, u.password, u.refresh, Some(u.lastRefresh))
  }

  /**
   * Saving then loading gives the record back, except that the refresh profile is
   * looked up again under the profiles current at load time.
   */
  lemma SaveLoadRoundTrip(u: UserConfig, profiles: seq<RefreshProfile>)
    ensures LoadUserFile(Some(Stripped(u)), profiles)
            == Some(u.(refreshProfile := ProfileFor(profiles, u.refresh)))
  {
  }

  /** A loaded record's profile is the one `getRefreshProfile` picks for it. */
  lemma LoadedProfile(raw: UserFile, profiles: seq<RefreshProfile>)
    requires raw.version == Some("1.0")
    ensures LoadUserFile(Some(raw), profiles).value.refreshProfile == ProfileFor(profiles, raw.refresh)
    ensures LoadUserFile(Some(raw), profiles).value.lastRefresh == (if raw.lastRefresh.Some? then raw.lastRefresh.value else 0)
  {
  }

  // ---------------------------------------------------------------------------
  // Users and the module state

  /** A user record object; `refreshUser` overwrites its `lastRefresh`. */
  class User {
    const active: bool
    const password: string
    const refresh: Option<string>
    const refreshProfile: RefreshProfile
    var lastRefresh: int

    constructor (c: UserConfig)
      ensures View() == c
    {
      active := c.active;
      password := c.password;
      refresh := c.refresh;
      refreshProfile := c.refreshProfile;
      lastRefresh := c.lastRefresh;
    }

    function View(): UserConfig
      reads this
    {
      UserConfig(active, password, refresh, refreshProfile, lastRefresh)
    }
  }

  /**
   * `saveUserFile(user, data)`: the copy written to `users/config-<user>.json`;
   * the record in memory keeps its profile.
   */
  method SaveUserFile(name: string, user: User) returns (path: string, saved: UserFile)
    ensures path == "users/" + FileOfUser(name)
    ensures saved == Stripped(user.View())
    ensures LoadUserFile(Some(saved), []).Some?
  {
    path := "users/" + FileOfUser(name);
    saved := UserFile(Some("1.0"), user.active, user.password, user.refresh, Some(user.lastRefresh));
  }

  /** The module-level `let`s of `backend/config.js`. */
  class ConfigStore {
    var loaded: bool
    var refreshProfiles: seq<RefreshProfile>
    var apiSettings: string
    var encryptionKey: string
    var googleSettings: string
    var users: map<string, User>

    constructor ()
      ensures !loaded && refreshProfiles == [] && users == map[]
    {
      loaded := false;
      refreshProfiles := [];
      apiSettings := "{}";
      encryptionKey := "";
      googleSettings := "{}";
      users := map[];
    }

    /**
     * `loadConfig`: without a usable `config.yaml` on the first load the process
     * exits; later it keeps the old settings. A usable file replaces the settings
     * (assigning only changed ones changes nothing observable). Then `users` is
     * replaced by exactly the users whose listed file loads, each with its profile
     * taken from the settings just stored.
     */
    method LoadConfig(config: Option<ConfigFile>, files: seq<string>, read: string -> Option<UserFile>)
      returns (exited: bool)
      modifies this
      ensures exited <==> LoadConfigFile(config).None? && !old(loaded)
      ensures exited ==> unchanged(this)
      ensures !exited ==> loaded
      ensures !exited && LoadConfigFile(config).Some? ==>
                var c := config.value;
                refreshProfiles == c.refresh && apiSettings == c.apiSettings
                && encryptionKey == c.encryptionKey && googleSettings == c.googleSettings
      ensures !exited && LoadConfigFile(config).None? ==>
                refreshProfiles == old(refreshProfiles) && apiSettings == old(apiSettings)
                && encryptionKey == old(encryptionKey) && googleSettings == old(googleSettings)
      ensures !exited ==> forall u ::
                u in users <==> FileOfUser(u) in files && LoadUserFile(read(FileOfUser(u)), refreshProfiles).Some?
      ensures !exited ==> forall u :: u in users ==>
                fresh(users[u]) && users[u].View() == LoadUserFile(read(FileOfUser(u)), refreshProfiles).value
    {
      var newConfig := LoadConfigFile(config);
      if newConfig.None? && !loaded {
        return true;
      }
      exited := false;
      if newConfig.Some? {
        refreshProfiles := newConfig.value.refresh;
        apiSettings := newConfig.value.apiSettings;
        encryptionKey := newConfig.value.encryptionKey;
        googleSettings := newConfig.value.googleSettings;
      }
      users := LoadUsers(files, read, refreshProfiles);
      loaded := true;
    }
  }

  /**
   * The loop of `loadConfig` over the listed files: each file passing the name
   * filter is loaded for the user its name spells, and kept when it loads.
   */
  method LoadUsers(files: seq<string>, read: string -> Option<UserFile>, profiles: seq<RefreshProfile>)
    returns (newUsers: map<string, User>)
    ensures forall u ::
              u in newUsers <==> FileOfUser(u) in files && LoadUserFile(read(FileOfUser(u)), profiles).Some?
    ensures forall u :: u in newUsers ==>
              fresh(newUsers[u]) && newUsers[u].View() == LoadUserFile(read(FileOfUser(u)), profiles).value
  {
    newUsers := map[];
    for i := 0 to |files|
      invariant forall u :: u in newUsers <==>
                  FileOfUser(u) in files[..i] && LoadUserFile(read(FileOfUser(u)), profiles).Some?
      invariant forall u :: u in newUsers ==>
                  fresh(newUsers[u]) && newUsers[u].View() == LoadUserFile(read(FileOfUser(u)), profiles).value
    {
      var file := files[i];
      assert files[..i + 1] == files[..i] + [file];
      forall u | FileOfUser(u) == file
        ensures IsUserConfigFile(file) && u == UserOfFile(file)
      {
        UserFileRoundTrip(u);
      }
      if IsUserConfigFile(file) {
        var user := UserOfFile(file);
        FileUserRoundTrip(file);
        var userConfig := LoadUserFile(read(FileOfUser(user)), profiles);
        if userConfig.Some? {
          var u := new User(userConfig.value);
          newUsers := newUsers[user := u];
        }
      }
    }
    assert files[..|files|] == files;
  }
}
