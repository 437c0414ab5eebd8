/**
  The media-group aggregator: an in-memory cache from a media group id to
  the fragments received so far, filled by the inbound-message handler,
  flushed into the message log by a delayed completion check, and reaped
  by a periodic sweep. Time is an integer number of seconds passed in by
  the caller; the 1.5 second delay and the 10 second sweep period are the
  caller choosing when to invoke CheckCompletion and Sweep.
 */
module MediaGroups {
  import opened Wrappers
  import opened Messages

  /** Seconds after its last fragment at which a group is reaped. */
  const MediaGroupTimeout: int := 20

  /** One cache entry: owner, resolved URLs in arrival order, kind, time of last fragment. */
  datatype Group = Group(userId: UserId, media: seq<Url>, kind: MediaKind, timestamp: int)

  type Cache = map<GroupId, Group>

  /** A row of the message log: user, sender role, text. */
  datatype SavedMessage = SavedMessage(userId: UserId, sender: string, text: string)

  /** Invariant of the cache: every group has a kind the label map knows and at least one URL. */
  predicate WellFormed(c: Cache)
  {
    forall g :: g in c ==> Groupable(c[g].kind) && c[g].media != []
  }

  /** The URLs a group holds, none when the group is absent. */
  function MediaOf(c: Cache, gid: GroupId): seq<Url>
  {
    if gid in c then c[gid].media else []
  }

  // ---------------------------------------------------------------------
  // Append
  // ---------------------------------------------------------------------

  /**
    The cache after one fragment of group gid arrives at time now. An unseen
    id gets a group owned by uid with the fragment's kind; an existing group
    keeps its owner and kind whatever the fragment says. Either way the URL
    goes at the end of the media and the timestamp becomes now; no other
    group changes.
   */
  function AppendFragment(c: Cache, gid: GroupId, uid: UserId, kind: MediaKind, url: Url, now: int): (r: Cache)
    ensures r.Keys == c.Keys + {gid}
    ensures r[gid].userId == (if gid in c then c[gid].userId else uid)
    ensures r[gid].kind == (if gid in c then c[gid].kind else kind)
    ensures r[gid].media == MediaOf(c, gid) + [url]
    ensures r[gid].timestamp == now
    ensures forall g :: g in c && g != gid ==> r[g] == c[g]
    ensures WellFormed(c) && Groupable(kind) ==> WellFormed(r)
  {
    var group := if gid in c then c[gid] else Group(uid, [], kind, now);
    c[gid := group.(media := group.media + [url], timestamp := now)]
  }

  // ---------------------------------------------------------------------
  // Completion check
  // ---------------------------------------------------------------------

  /** The delayed check finds the group with exactly the expected number of URLs. */
  predicate Flushes(c: Cache, gid: GroupId, expected: nat)
  {
    gid in c && |c[gid].media| == expected
  }

  /** The consolidated log row for a group: saved for its owner, as sent by the user. */
  function FlushRecord(g: Group): (r: SavedMessage)
    requires Groupable(g.kind)
    ensures r.userId == g.userId && r.sender == "user"
  {
    SavedMessage(g.userId, "user", ConsolidatedText(g.kind, g.media))
  }

  /** The cache and the message log together. */
  datatype State = State(cache: Cache, log: seq<SavedMessage>)

  /**
    The state after the delayed completion check for gid with the count it
    was scheduled with: when that count still matches, exactly one row is
    logged and exactly that group disappears; otherwise nothing changes.
   */
  function CheckStep(s: State, gid: GroupId, expected: nat): (r: State)
    requires WellFormed(s.cache)
    ensures WellFormed(r.cache)
    ensures Flushes(s.cache, gid, expected) ==>
              && r.cache.Keys == s.cache.Keys - {gid}
              && (forall g :: g in r.cache ==> r.cache[g] == s.cache[g])
              && r.log == s.log + [FlushRecord(s.cache[gid])]
    ensures !Flushes(s.cache, gid, expected) ==> r == s
  {
    if gid in s.cache && |s.cache[gid].media| == expected then
      var group := s.cache[gid];
      State(s.cache - {gid}, s.log + [SavedMessage(group.userId, "user", ConsolidatedText(group.kind, group.media))])
    else
      s
  }

  // ---------------------------------------------------------------------
  // Sweep
  // ---------------------------------------------------------------------

  /** Strictly more than the timeout has passed since the group's last fragment. */
  predicate Expired(g: Group, now: int)
  {
    now - g.timestamp > MediaGroupTimeout
  }

  /** The cache after a sweep at time now: exactly the groups that have not expired, unchanged. */
  function Swept(c: Cache, now: int): (r: Cache)
    ensures forall g :: g in r <==> g in c && !Expired(c[g], now)
    ensures forall g :: g in r ==> r[g] == c[g]
    ensures WellFormed(c) ==> WellFormed(r)
  {
    map g | g in c && !Expired(c[g], now) :: c[g]
  }

  /**
    The first loop of the sweep: the ids of the expired groups, each once.
    The source reads a missing timestamp as now; every stored group has one.
   */
  method CollectExpired(c: Cache, now: int) returns (toDelete: seq<GroupId>)
    ensures forall g :: g in toDelete <==> g in c && Expired(c[g], now)
    ensures forall i, j :: 0 <= i < j < |toDelete| ==> toDelete[i] != toDelete[j]
  {
    toDelete := [];
    var remaining := c.Keys;
    while remaining != {}
      invariant remaining <= c.Keys
      invariant forall g :: g in toDelete <==> g in c && g !in remaining && Expired(c[g], now)
      invariant forall i, j :: 0 <= i < j < |toDelete| ==> toDelete[i] != toDelete[j]
      decreases remaining
    {
      var g :| g in remaining;
      if Expired(c[g], now) {
        toDelete := toDelete + [g];
      }
      remaining := remaining - {g};
    }
  }

  // ---------------------------------------------------------------------
  // The aggregator object
  // ---------------------------------------------------------------------

  /** The cache together with the message log it writes into. */
  class Aggregator {
    var cache: Cache
    var log: seq<SavedMessage>

    ghost predicate Valid()
      reads this
    {
      WellFormed(cache)
    }

    constructor ()
      ensures Valid()
      ensures cache == map[] && log == []
    {
      cache, log := map[], [];
    }

    /**
      The grouping branch of the handler, from the lookup of the group to the
      refreshed timestamp. Returns the URL count the scheduled completion
      check will expect. The source inserts a new group before awaiting the
      file lookup, so for a moment it is stored with no URLs; here creation
      and the first append are one step.
     */
    method Append(gid: GroupId, uid: UserId, kind: MediaKind, url: Url, now: int) returns (expected: nat)
      requires Valid()
      requires Groupable(kind)
      modifies this
      ensures Valid()
      ensures cache == AppendFragment(old(cache), gid, uid, kind, url, now)
      ensures log == old(log)
      ensures expected == |cache[gid].media| == |MediaOf(old(cache), gid)| + 1
    {
      var group: Group;
      if gid in cache {
        group := cache[gid];
      } else {
        group := Group(uid, [], kind, now);
      }
      group := group.(media := group.media + [url], timestamp := now);
      cache := cache[gid := group];
      expected := |group.media|;
    }

    /**
      The body of the delayed completion check: when the group is still
      there with exactly the expected number of URLs, save one consolidated
      row for its owner and delete it; otherwise do nothing.
     */
    method CheckCompletion(gid: GroupId, expected: nat)
      requires Valid()
      modifies this
      ensures Valid()
      ensures State(cache, log) == CheckStep(old(State(cache, log)), gid, expected)
    {
      if gid in cache && |cache[gid].media| == expected {
        var group := cache[gid];
        log := log + [SavedMessage(group.userId, "user", ConsolidatedText(group.kind, group.media))];
        cache := cache - {gid};
      }
    }

    /** One pass of the reaper: collect the expired ids, then delete each of them. */
    method Sweep(now: int)
      requires Valid()
      modifies this
      ensures Valid()
      ensures cache == Swept(old(cache), now)
      ensures log == old(log)
    {
      var toDelete := CollectExpired(cache, now);
      var i := 0;
      while i < |toDelete|
        invariant 0 <= i <= |toDelete|
        invariant cache.Keys == old(cache).Keys - set j | 0 <= j < i :: toDelete[j]
        invariant forall g :: g in cache ==> cache[g] == old(cache)[g]
        invariant forall j :: i <= j < |toDelete| ==> toDelete[j] in cache
        invariant log == old(log)
      {
        // the source's del would fail on a missing key; the ids are distinct, so each is still present
        assert toDelete[i] in cache;
        cache := cache - {toDelete[i]};
        i := i + 1;
      }
      assert forall g :: g in toDelete <==> exists j :: 0 <= j < |toDelete| && toDelete[j] == g;
    }

    /**
      The inbound-message handler without its I/O: a message with no sender
      is ignored; a grouped image, video, voice or gif message goes into the
      aggregator and schedules a check for the returned count; any other
      message saves at most one single-item row. filePath is what the Bot
      API returned for the file id Classify chose.
     */
    method HandleUserMessage(m: IncomingMessage, user: Option<UserId>, token: string, filePath: string, now: int)
      returns (scheduled: Option<nat>)
      requires Valid()
      modifies this
      ensures Valid()
      ensures user.None? ==> cache == old(cache) && log == old(log) && scheduled.None?
      ensures user.Some? && EntersAggregator(m) ==>
                && cache == AppendFragment(old(cache), m.mediaGroupId.value, user.value,
                                           Classify(m).value.kind, ResolveUrl(token, filePath), now)
                && log == old(log)
                && scheduled == Some(|cache[m.mediaGroupId.value].media|)
      ensures user.Some? && !EntersAggregator(m) ==>
                && cache == old(cache)
                && scheduled.None?
                && log == old(log) + match SingleItemText(m, token, filePath)
                                     case Some(t) => [SavedMessage(user.value, "user", t)]
                                     case None => []
    {
      if user.None? {
        return None;
      }
      var uid := user.value;
      if EntersAggregator(m) {
        var media := Classify(m).value;
        var count := Append(m.mediaGroupId.value, uid, media.kind, ResolveUrl(token, filePath), now);
        return Some(count);
      }
      var text := SingleItemText(m, token, filePath);
      if text.Some? {
        log := log + [SavedMessage(uid, "user", text.value)];
      }
      return None;
    }
  }
}
