/** `DatabaseManager` over the bot's tables. A table with a unique column is a map keyed by
    that column; the command-usage log, which has no unique column besides its id, is a
    sequence. Timestamps are the integer `now` of each call; sessions and commits are not
    modelled, so each call is one atomic update. */
module Database {
  import opened Strings
  import Cache

  datatype UserRow = UserRow(id: int, discordId: string, username: string, discriminator: Option<string>,
                             avatarUrl: Option<string>, isPremium: bool, updatedAt: int)

  datatype CommandUsageRow = CommandUsageRow(id: int, commandName: string, userId: int, guildId: Option<int>,
                                             channelId: string, executionTimeMs: Option<real>, success: bool,
                                             errorMessage: Option<string>, executedAt: int)

  datatype CacheRow = CacheRow(value: string, expiresAt: int)

  datatype SettingRow = SettingRow(value: string, description: Option<string>, updatedAt: int)

  /** A row of the `rate_limits` table, keyed by (identifier, resource). */
  datatype RateLimitRow = RateLimitRow(requestsCount: int, resetAt: int)

  /** What `get_cache_entry` returns: the row unless it expired strictly before `now`. */
  function CacheEntryAt(t: map<string, CacheRow>, key: string, now: int): (r: Option<CacheRow>)
    ensures r.Some? <==> key in t && t[key].expiresAt >= now
    ensures r.Some? ==> r.value == t[key]
  {
    if key in t && !(t[key].expiresAt < now) then Some(t[key]) else None
  }

  /** The cache table after `get_cache_entry`: a row that expired strictly before `now` is gone. */
  function CacheEntriesAfterGet(t: map<string, CacheRow>, key: string, now: int): map<string, CacheRow> {
    if key in t && t[key].expiresAt < now then t - {key} else t
  }

  class Db {
    var users: map<string, UserRow>
    var nextUserId: int
    var commandUsage: seq<CommandUsageRow>
    var nextUsageId: int
    var cacheEntries: map<string, CacheRow>
    var settings: map<string, SettingRow>
    var rateLimits: map<(string, string), RateLimitRow>

    /** Every user row is filed under its own Discord id, and ids come from the counter and are
        distinct. */
    predicate Valid()
      reads this
    {
      && nextUserId >= 1 && nextUsageId >= 1
      && (forall d :: d in users ==> users[d].discordId == d && 1 <= users[d].id < nextUserId)
      && (forall d1, d2 :: d1 in users && d2 in users && d1 != d2 ==> users[d1].id != users[d2].id)
      && (forall i :: 0 <= i < |commandUsage| ==> 1 <= commandUsage[i].id < nextUsageId)
    }

    /** Every table other than `rate_limits` is as it was. */
    twostate predicate OnlyRateLimitsChanged()
      reads this
    {
      && users == old(users) && nextUserId == old(nextUserId)
      && commandUsage == old(commandUsage) && nextUsageId == old(nextUsageId)
      && cacheEntries == old(cacheEntries) && settings == old(settings)
    }

    constructor()
      ensures Valid()
      ensures users == map[] && commandUsage == [] && cacheEntries == map[] && settings == map[]
      ensures rateLimits == map[]
    {
      users := map[];
      nextUserId := 1;
      commandUsage := [];
      nextUsageId := 1;
      cacheEntries := map[];
      settings := map[];
      rateLimits := map[];
    }

    /** `create_or_update_user`: an existing user has username, discriminator and avatar
        overwritten (even with None); otherwise exactly one row is added with the next id. */
    method CreateOrUpdateUser(discordId: string, username: string, now: int,
                              discriminator: Option<string> := None, avatarUrl: Option<string> := None)
      returns (user: UserRow)
      requires Valid()
      modifies this
      ensures Valid()
      ensures discordId in old(users) ==>
        && user == old(users)[discordId].(username := username, discriminator := discriminator,
                                         avatarUrl := avatarUrl, updatedAt := now)
        && nextUserId == old(nextUserId)
      ensures discordId !in old(users) ==>
        && user == UserRow(old(nextUserId), discordId, username, discriminator, avatarUrl, false, now)
        && nextUserId == old(nextUserId) + 1
      ensures users == old(users)[discordId := user]
      ensures |users| == |old(users)| + (if discordId in old(users) then 0 else 1)
      ensures commandUsage == old(commandUsage) && nextUsageId == old(nextUsageId)
      ensures cacheEntries == old(cacheEntries) && settings == old(settings) && rateLimits == old(rateLimits)
    {
      ghost var before := users;
      if discordId in users {
        user := users[discordId].(username := username, discriminator := discriminator,
                                  avatarUrl := avatarUrl, updatedAt := now);
        users := users[discordId := user];
      } else {
        user := UserRow(nextUserId, discordId, username, discriminator, avatarUrl, false, now);
        users := users[discordId := user];
        nextUserId := nextUserId + 1;
      }
      forall d | d in users
        ensures users[d].discordId == d && 1 <= users[d].id < nextUserId
      {
        if d != discordId { assert users[d] == before[d]; }
      }
      forall d1, d2 | d1 in users && d2 in users && d1 != d2
        ensures users[d1].id != users[d2].id
      {
        if d1 != discordId && d2 != discordId {
          assert users[d1] == before[d1] && users[d2] == before[d2];
        } else if d1 == discordId {
          assert users[d2] == before[d2];
        } else {
          assert users[d1] == before[d1];
        }
      }
    }

    /** `log_command_usage`: exactly one row is appended; no other table changes. */
    method LogCommandUsage(commandName: string, userId: int, guildId: Option<int>, channelId: string, now: int,
                           executionTimeMs: Option<real> := None, success: bool := true,
                           errorMessage: Option<string> := None)
      returns (usage: CommandUsageRow)
      requires Valid()
      modifies this
      ensures Valid()
      ensures usage == CommandUsageRow(old(nextUsageId), commandName, userId, guildId, channelId,
                                       executionTimeMs, success, errorMessage, now)
      ensures commandUsage == old(commandUsage) + [usage] && nextUsageId == old(nextUsageId) + 1
      ensures users == old(users) && nextUserId == old(nextUserId)
      ensures cacheEntries == old(cacheEntries) && settings == old(settings) && rateLimits == old(rateLimits)
    {
      usage := CommandUsageRow(nextUsageId, commandName, userId, guildId, channelId,
                               executionTimeMs, success, errorMessage, now);
      commandUsage := commandUsage + [usage];
      nextUsageId := nextUsageId + 1;
      assert forall i :: 0 <= i < |old(commandUsage)| ==> commandUsage[i] == old(commandUsage)[i];
    }

    /** `get_cache_entry`: a row whose expiry is strictly before `now` is deleted and not
        returned; a row expiring exactly at `now` is still returned. */
    method GetCacheEntry(cacheKey: string, now: int) returns (entry: Option<CacheRow>)
      modifies this
      ensures entry == CacheEntryAt(old(cacheEntries), cacheKey, now)
      ensures cacheEntries == CacheEntriesAfterGet(old(cacheEntries), cacheKey, now)
      ensures users == old(users) && nextUserId == old(nextUserId)
      ensures commandUsage == old(commandUsage) && nextUsageId == old(nextUsageId)
      ensures settings == old(settings) && rateLimits == old(rateLimits)
    {
      if cacheKey in cacheEntries && cacheEntries[cacheKey].expiresAt < now {
        cacheEntries := cacheEntries - {cacheKey};
        return None;
      }
      if cacheKey in cacheEntries {
        return Some(cacheEntries[cacheKey]);
      }
      return None;
    }

    /** `set_cache_entry`: upsert of value and expiry `now + ttlSeconds`. */
    method SetCacheEntry(cacheKey: string, value: string, now: int, ttlSeconds: int := 3600)
      modifies this
      ensures cacheEntries == old(cacheEntries)[cacheKey := CacheRow(value, now + ttlSeconds)]
      ensures users == old(users) && nextUserId == old(nextUserId)
      ensures commandUsage == old(commandUsage) && nextUsageId == old(nextUsageId)
      ensures settings == old(settings) && rateLimits == old(rateLimits)
    {
      cacheEntries := cacheEntries[cacheKey := CacheRow(value, now + ttlSeconds)];
    }

    /** `get_setting`: the stored value, or `default` for a missing key. */
    method GetSetting(key: string, default: Option<string> := None) returns (r: Option<string>)
      ensures key in settings ==> r == Some(settings[key].value)
      ensures key !in settings ==> r == default
    {
      if key in settings {
        return Some(settings[key].value);
      }
      return default;
    }

    /** `set_setting`: upsert; the description is overwritten even with None. */
    method SetSetting(key: string, value: string, now: int, description: Option<string> := None)
      modifies this
      ensures settings == old(settings)[key := SettingRow(value, description, now)]
      ensures users == old(users) && nextUserId == old(nextUserId)
      ensures commandUsage == old(commandUsage) && nextUsageId == old(nextUsageId)
      ensures cacheEntries == old(cacheEntries) && rateLimits == old(rateLimits)
    {
      settings := settings[key := SettingRow(value, description, now)];
    }
  }

  /** Round trip: an entry set at `t` with `ttl` is returned at every time up to and including
      `t + ttl`, and is gone after it. */
  lemma SetThenGetCacheEntry(t: map<string, CacheRow>, key: string, value: string, now: int, ttl: int, later: int)
    ensures later <= now + ttl ==>
      CacheEntryAt(t[key := CacheRow(value, now + ttl)], key, later) == Some(CacheRow(value, now + ttl))
    ensures later > now + ttl ==> CacheEntryAt(t[key := CacheRow(value, now + ttl)], key, later).None?
  {
  }

  /** Reading an entry again at the same time gives the same answer. */
  lemma GetCacheEntryStable(t: map<string, CacheRow>, key: string, now: int)
    ensures CacheEntryAt(CacheEntriesAfterGet(t, key, now), key, now) == CacheEntryAt(t, key, now)
  {
  }

  /** The cache table and the in-memory cache disagree at the instant of expiry: the table
      still returns an entry whose expiry equals `now`, the in-memory cache no longer does. */
  lemma ExpiryBoundaryDiffers(key: string, value: string, now: int)
    ensures CacheEntryAt(map[key := CacheRow(value, now)], key, now).Some?
    ensures Cache.Lookup(map[key := Cache.Entry(Cache.Other(value), now)], key, now).None?
  {
  }
}
