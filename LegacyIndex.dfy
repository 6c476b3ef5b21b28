/**
 * The older single-file scheduler (`index.js`): each minute `cycle` reloads
 * `config.yaml`; a changed configuration refreshes every user at once, otherwise
 * each user is refreshed when one of its profile's times has passed and the last
 * refresh is older than that time and at least five minutes old.
 *
 * The scheduler's `config` and `lastRefresh` are the fields of `Scheduler`; the
 * clock is the parameter `now`, read once per cycle. `refreshUser` is started
 * without being awaited, so a cycle is modelled by the users it starts.
 */
module LegacyIndex {
  import opened Maybe
  import opened Config
  import opened Index

  /** A user of `config.yaml`; the WebUntis and Google settings as their JSON text. */
  datatype LegacyUser = LegacyUser(name: string, refresh: Option<string>, settings: string)

  datatype LegacyConfig = LegacyConfig(version: Option<string>, refresh: seq<RefreshProfile>, users: seq<LegacyUser>)

  /** `loadConfig`: only version "1.1" is accepted. */
  function LoadLegacyConfig(raw: Option<LegacyConfig>): (r: Option<LegacyConfig>)
    ensures r.Some? <==> raw.Some? && raw.value.version == Some("1.1")
    ensures r.Some? ==> r == raw
  {
    if raw.Some? && raw.value.version == Some("1.1") then raw else None
  }

  const LegacyGap := 5 * 60 * 1000

  /** `lastRefresh[name]`: `undefined` when the user was never refreshed. */
  function Get(last: map<string, int>, name: string): Option<int> {
    if name in last then Some(last[name]) else None
  }

  /** The trigger of one profile time; a user never refreshed is due once the time has passed. */
  predicate LegacyFires(time: string, last: Option<int>, now: int) {
    var t := RefreshAt(time, now);
    t.Some? && now >= t.value && (last.None? || (last.value < t.value && now - last.value >= LegacyGap))
  }

  /** Some profile time of the user fires. */
  predicate LegacyDue(u: LegacyUser, profiles: seq<RefreshProfile>, last: Option<int>, now: int) {
    var times := RefreshTimes(ProfileFor(profiles, u.refresh), now);
    exists j :: 0 <= j < |times| && LegacyFires(times[j], last, now)
  }

  /** Once stamped with `now`, no time fires again in the same cycle. */
  lemma StampedNeverFires(time: string, now: int)
    ensures !LegacyFires(time, Some(now), now)
  {
  }

  /** A refresh five minutes after the last is due at any passed time later than the last. */
  lemma FiresAfterGap(time: string, last: int, now: int)
    requires RefreshAt(time, now).Some? && last < RefreshAt(time, now).value <= now
    ensures LegacyFires(time, Some(last), now) <==> now - last >= LegacyGap
  {
  }

  function UserNames(users: seq<LegacyUser>): set<string> {
    set i | 0 <= i < |users| :: users[i].name
  }

  predicate DistinctNames(users: seq<LegacyUser>) {
    forall i, j :: 0 <= i < j < |users| ==> users[i].name != users[j].name
  }

  // ---------------------------------------------------------------------------
  // The invariant of the scan over users, starting from the stamps `start`

  /** The users refreshed so far: indices below `i`, in order, each once. */
  predicate Scanned(refreshed: seq<nat>, i: int) {
    && (forall k :: 0 <= k < |refreshed| ==> refreshed[k] < i)
    && (forall k, k' :: 0 <= k < k' < |refreshed| ==> refreshed[k] < refreshed[k'])
  }

  /** Every user refreshed so far carries the stamp `now`. */
  predicate Stamped(users: seq<LegacyUser>, last: map<string, int>, refreshed: seq<nat>, now: int) {
    forall k :: 0 <= k < |refreshed| && refreshed[k] < |users| ==> Get(last, users[refreshed[k]].name) == Some(now)
  }

  /** The stamps of names nobody refreshed are those at the start. */
  ghost predicate Untouched(users: seq<LegacyUser>, start: map<string, int>, last: map<string, int>, refreshed: seq<nat>) {
    forall n :: (forall k :: 0 <= k < |refreshed| && refreshed[k] < |users| ==> users[refreshed[k]].name != n) ==>
      Get(last, n) == Get(start, n)
  }

  /** With distinct names, the users below `i` refreshed are exactly those due at the start. */
  predicate Decided(users: seq<LegacyUser>, profiles: seq<RefreshProfile>, now: int, start: map<string, int>,
                    refreshed: seq<nat>, i: int)
  {
    DistinctNames(users) ==> forall j :: 0 <= j < i && j < |users| ==>
      (j in refreshed <==> LegacyDue(users[j], profiles, Get(start, users[j].name), now))
  }

  /** One user of the scan keeps the invariant. */
  lemma ScanStep(users: seq<LegacyUser>, profiles: seq<RefreshProfile>, now: int, start: map<string, int>,
                 before: map<string, int>, after: map<string, int>, done: seq<nat>, refreshed: seq<nat>,
                 i: int, count: nat)
    requires 0 <= i < |users|
    requires Scanned(done, i) && Stamped(users, before, done, now) && Untouched(users, start, before, done)
    requires Decided(users, profiles, now, start, done, i)
    requires count <= 1
    requires count == 1 <==> LegacyDue(users[i], profiles, Get(before, users[i].name), now)
    requires after == if count == 1 then before[users[i].name := now] else before
    requires refreshed == if count == 1 then done + [i] else done
    ensures Scanned(refreshed, i + 1) && Stamped(users, after, refreshed, now)
    ensures Untouched(users, start, after, refreshed)
    ensures Decided(users, profiles, now, start, refreshed, i + 1)
  {
    StepStamped(users, before, after, done, refreshed, i, count, now);
    StepUntouched(users, start, before, after, done, refreshed, i, count, now);
    StepDecided(users, profiles, now, start, before, done, refreshed, i, count);
  }

  lemma StepStamped(users: seq<LegacyUser>, before: map<string, int>, after: map<string, int>,
                    done: seq<nat>, refreshed: seq<nat>, i: int, count: nat, now: int)
    requires 0 <= i < |users| && Scanned(done, i) && Stamped(users, before, done, now)
    requires after == if count == 1 then before[users[i].name := now] else before
    requires refreshed == if count == 1 then done + [i] else done
    ensures Scanned(refreshed, i + 1) && Stamped(users, after, refreshed, now)
  {
    assert forall k :: 0 <= k < |done| ==> refreshed[k] == done[k];
  }

  lemma StepDecided(users: seq<LegacyUser>, profiles: seq<RefreshProfile>, now: int, start: map<string, int>,
                    before: map<string, int>, done: seq<nat>, refreshed: seq<nat>, i: int, count: nat)
    requires 0 <= i < |users|
    requires Scanned(done, i) && Untouched(users, start, before, done)
    requires Decided(users, profiles, now, start, done, i)
    requires count == 1 <==> LegacyDue(users[i], profiles, Get(before, users[i].name), now)
    requires refreshed == if count == 1 then done + [i] else done
    ensures Decided(users, profiles, now, start, refreshed, i + 1)
  {
    if DistinctNames(users) {
      assert forall k :: 0 <= k < |done| ==> users[done[k]].name != users[i].name;
      assert Get(before, users[i].name) == Get(start, users[i].name);
      forall j | 0 <= j < i + 1
        ensures j in refreshed <==> LegacyDue(users[j], profiles, Get(start, users[j].name), now)
      {
        if j == i {
          assert i !in done;
        } else {
          assert (j in refreshed) == (j in done);
        }
      }
    }
  }

  lemma StepUntouched(users: seq<LegacyUser>, start: map<string, int>, before: map<string, int>,
                      after: map<string, int>, done: seq<nat>, refreshed: seq<nat>, i: int, count: nat, now: int)
    requires 0 <= i < |users| && Untouched(users, start, before, done)
    requires after == if count == 1 then before[users[i].name := now] else before
    requires refreshed == if count == 1 then done + [i] else done
    ensures Untouched(users, start, after, refreshed)
  {
    forall n | forall k :: 0 <= k < |refreshed| && refreshed[k] < |users| ==> users[refreshed[k]].name != n
      ensures Get(after, n) == Get(start, n)
    {
      assert forall k :: 0 <= k < |done| ==> refreshed[k] == done[k];
      if count == 1 {
        assert users[refreshed[|done|]].name == users[i].name;
      }
    }
  }

  class Scheduler {
    var config: Option<LegacyConfig>
    var lastRefresh: map<string, int>

    constructor ()
      ensures config == None && lastRefresh == map[]
    {
      config := None;
      lastRefresh := map[];
    }

    /**
     * `cycle`: without a usable configuration, and none from before, the process
     * exits. A usable configuration that differs from the stored one is stored,
     * every user is refreshed and stamped, and the cycle ends. Otherwise the
     * stored configuration is scanned and each user is refreshed at most once.
     */
    method Cycle(raw: Option<LegacyConfig>, now: int) returns (exited: bool, refreshed: seq<nat>)
      modifies this
      ensures exited <==> LoadLegacyConfig(raw).None? && old(config).None?
      ensures exited ==> unchanged(this) && refreshed == []
      ensures !exited && LoadLegacyConfig(raw).Some? && LoadLegacyConfig(raw) != old(config) ==>
                var users := raw.value.users;
                && config == raw
                && |refreshed| == |users| && (forall k :: 0 <= k < |users| ==> refreshed[k] == k)
                && lastRefresh.Keys == old(lastRefresh).Keys + UserNames(users)
                && forall n :: n in lastRefresh ==>
                     lastRefresh[n] == if n in UserNames(users) then now else old(lastRefresh)[n]
      ensures !exited && (LoadLegacyConfig(raw).None? || LoadLegacyConfig(raw) == old(config)) ==>
                var users := old(config).value.users;
                var profiles := old(config).value.refresh;
                && config == old(config)
                && (forall k :: 0 <= k < |refreshed| ==> refreshed[k] < |users|)
                && (forall k, k' :: 0 <= k < k' < |refreshed| ==> refreshed[k] < refreshed[k'])
                && (forall k :: 0 <= k < |refreshed| ==> Get(lastRefresh, users[refreshed[k]].name) == Some(now))
                && (forall n :: (forall k :: 0 <= k < |refreshed| ==> users[refreshed[k]].name != n) ==>
                      Get(lastRefresh, n) == Get(old(lastRefresh), n))
                && (DistinctNames(users) ==> forall i :: 0 <= i < |users| ==>
                      (i in refreshed <==> LegacyDue(users[i], profiles, Get(old(lastRefresh), users[i].name), now)))
    {
      var newConfig := LoadLegacyConfig(raw);
      if newConfig.None? && config.None? {
        return true, [];
      }
      exited := false;
      if newConfig.Some? && newConfig != config {
        config := newConfig;
        refreshed := RefreshAll(newConfig.value.users, now);
        return;
      }
      refreshed := RefreshDue(config.value, now);
    }

    /** The configuration changed: every user is refreshed and stamped, in order. */
    method RefreshAll(users: seq<LegacyUser>, now: int) returns (refreshed: seq<nat>)
      modifies this`lastRefresh
      ensures |refreshed| == |users| && forall k :: 0 <= k < |users| ==> refreshed[k] == k
      ensures lastRefresh.Keys == old(lastRefresh).Keys + UserNames(users)
      ensures forall n :: n in lastRefresh ==>
                lastRefresh[n] == if n in UserNames(users) then now else old(lastRefresh)[n]
    {
      refreshed := [];
      for i := 0 to |users|
        invariant |refreshed| == i && forall k :: 0 <= k < i ==> refreshed[k] == k
        invariant lastRefresh.Keys == old(lastRefresh).Keys + UserNames(users[..i])
        invariant forall n :: n in lastRefresh ==>
                    lastRefresh[n] == if n in UserNames(users[..i]) then now else old(lastRefresh)[n]
      {
        refreshed := refreshed + [i];
        lastRefresh := lastRefresh[users[i].name := now];
        assert UserNames(users[..i + 1]) == UserNames(users[..i]) + {users[i].name} by {
          assert forall j :: 0 <= j < i ==> users[..i + 1][j] == users[..i][j];
        }
      }
      assert users[..|users|] == users;
    }

    /** The scan of an unchanged configuration: every user whose times fire, once each. */
    method RefreshDue(c: LegacyConfig, now: int) returns (refreshed: seq<nat>)
      modifies this`lastRefresh
      ensures forall k :: 0 <= k < |refreshed| ==> refreshed[k] < |c.users|
      ensures forall k, k' :: 0 <= k < k' < |refreshed| ==> refreshed[k] < refreshed[k']
      ensures forall k :: 0 <= k < |refreshed| ==> Get(lastRefresh, c.users[refreshed[k]].name) == Some(now)
      ensures forall n :: (forall k :: 0 <= k < |refreshed| ==> c.users[refreshed[k]].name != n) ==>
                Get(lastRefresh, n) == Get(old(lastRefresh), n)
      ensures DistinctNames(c.users) ==> forall i :: 0 <= i < |c.users| ==>
                (i in refreshed <==> LegacyDue(c.users[i], c.refresh, Get(old(lastRefresh), c.users[i].name), now))
    {
      var users := c.users;
      refreshed := [];
      for i := 0 to |users|
        invariant Scanned(refreshed, i)
        invariant Stamped(users, lastRefresh, refreshed, now)
        invariant Untouched(users, old(lastRefresh), lastRefresh, refreshed)
        invariant Decided(users, c.refresh, now, old(lastRefresh), refreshed, i)
      {
        ghost var before := lastRefresh;
        ghost var done := refreshed;
        var count := RefreshUserIfDue(c.refresh, users[i], now);
        if count == 1 {
          refreshed := refreshed + [i];
        }
        ScanStep(users, c.refresh, now, old(lastRefresh), before, lastRefresh, done, refreshed, i, count);
      }
    }

    /**
     * The loop over one user's refresh times. It does not stop at the first time
     * that fires, yet the stamp that time leaves keeps every later one from
     * firing, so the user is refreshed at most once.
     */
    method RefreshUserIfDue(profiles: seq<RefreshProfile>, user: LegacyUser, now: int) returns (count: nat)
      modifies this`lastRefresh
      ensures count <= 1
      ensures count == 1 <==> LegacyDue(user, profiles, Get(old(lastRefresh), user.name), now)
      ensures lastRefresh == if count == 1 then old(lastRefresh)[user.name := now] else old(lastRefresh)
    {
      var refreshProfile := GetRefreshProfile(profiles, user.refresh);
      var refreshTimes := if IsWeekend(now) then refreshProfile.weekend else refreshProfile.weekday;
      assert refreshTimes == RefreshTimes(ProfileFor(profiles, user.refresh), now);
      ghost var last := Get(lastRefresh, user.name);
      count := 0;
      for j := 0 to |refreshTimes|
        invariant count <= 1
        invariant count == 0 ==> lastRefresh == old(lastRefresh)
        invariant count == 1 ==> lastRefresh == old(lastRefresh)[user.name := now]
        invariant count == 1 <==> exists k :: 0 <= k < j && LegacyFires(refreshTimes[k], last, now)
      {
        var refreshTime := RefreshAt(refreshTimes[j], now);
        var stamp := Get(lastRefresh, user.name);
        if refreshTime.Some? && now >= refreshTime.value
           && (stamp.None? || (stamp.value < refreshTime.value && now - stamp.value >= LegacyGap)) {
          count := count + 1;
          lastRefresh := lastRefresh[user.name := now];
        }
      }
    }
  }
}
