/**
  Runs of the aggregator: a sequence of inbound fragments, completion
  checks and sweeps applied to a cache and log, and what such runs
  guarantee: order-preserving accumulation per group id, one flush for a
  settled group, and no effect of any check on a group that has been
  flushed or reaped.
 */
module MediaGroupTraces {
  import opened Wrappers
  import opened Messages
  import opened MediaGroups

  /** The three things that happen to the cache, each an atomic step. */
  datatype Event =
    | Fragment(gid: GroupId, uid: UserId, kind: MediaKind, url: Url, now: int)
    | CompletionCheck(gid: GroupId, expected: nat)
    | SweepAt(now: int)

  /** Only image, video, voice and gif fragments reach the aggregator. */
  predicate Admissible(e: Event)
  {
    e.Fragment? ==> Groupable(e.kind)
  }

  predicate AllAdmissible(es: seq<Event>)
  {
    forall i :: 0 <= i < |es| ==> Admissible(es[i])
  }

  function Step(s: State, e: Event): (r: State)
    requires WellFormed(s.cache)
    requires Admissible(e)
    ensures WellFormed(r.cache)
    ensures s.log <= r.log && |r.log| <= |s.log| + 1
  {
    match e
    case Fragment(gid, uid, kind, url, now) => State(AppendFragment(s.cache, gid, uid, kind, url, now), s.log)
    case CompletionCheck(gid, expected) => CheckStep(s, gid, expected)
    case SweepAt(now) => State(Swept(s.cache, now), s.log)
  }

  /** The state after the events, in order. The cache stays well formed and the log only grows. */
  function Run(s: State, es: seq<Event>): (r: State)
    requires WellFormed(s.cache)
    requires AllAdmissible(es)
    ensures WellFormed(r.cache)
    ensures s.log <= r.log
    decreases |es|
  {
    if es == [] then s else Run(Step(s, es[0]), es[1..])
  }

  lemma {:induction false} RunConcat(s: State, a: seq<Event>, b: seq<Event>)
    requires WellFormed(s.cache)
    requires AllAdmissible(a) && AllAdmissible(b)
    ensures AllAdmissible(a + b)
    ensures Run(s, a + b) == Run(Run(s, a), b)
    decreases |a|
  {
    assert AllAdmissible(a + b) by {
      forall i | 0 <= i < |a + b| ensures Admissible((a + b)[i]) {
        if i < |a| { assert (a + b)[i] == a[i]; } else { assert (a + b)[i] == b[i - |a|]; }
      }
    }
    if a == [] {
      assert a + b == b;
    } else {
      assert (a + b)[0] == a[0];
      assert (a + b)[1..] == a[1..] + b;
      RunConcat(Step(s, a[0]), a[1..], b);
    }
  }

  // ---------------------------------------------------------------------
  // Accumulation
  // ---------------------------------------------------------------------

  /** The URLs of the fragments for group g, in arrival order. */
  function UrlsFor(es: seq<Event>, g: GroupId): seq<Url>
  {
    if es == [] then []
    else (if es[0].Fragment? && es[0].gid == g then [es[0].url] else []) + UrlsFor(es[1..], g)
  }

  /** The first fragment for group g, if any; there is one exactly when g has URLs in the run. */
  function FirstFor(es: seq<Event>, g: GroupId): (r: Option<Event>)
    ensures r.Some? ==> r.value.Fragment? && r.value.gid == g
    ensures r.Some? <==> UrlsFor(es, g) != []
  {
    if es == [] then None
    else if es[0].Fragment? && es[0].gid == g then Some(es[0])
    else FirstFor(es[1..], g)
  }

  predicate AllFragments(es: seq<Event>)
  {
    forall i :: 0 <= i < |es| ==> es[i].Fragment? && Groupable(es[i].kind)
  }

  lemma AllFragmentsTail(es: seq<Event>)
    requires es != [] && AllFragments(es)
    ensures AllFragments(es[1..]) && AllAdmissible(es)
  {
    forall i | 0 <= i < |es[1..]| ensures es[1..][i].Fragment? && Groupable(es[1..][i].kind) {
      assert es[1..][i] == es[i + 1];
    }
  }

  /** What one fragment does to group g. */
  lemma FragmentStep(s: State, e: Event, g: GroupId)
    requires WellFormed(s.cache)
    requires e.Fragment? && Groupable(e.kind)
    ensures (g in Step(s, e).cache) <==> (g in s.cache || e.gid == g)
    ensures MediaOf(Step(s, e).cache, g) == MediaOf(s.cache, g) + (if e.gid == g then [e.url] else [])
    ensures g in s.cache ==>
              Step(s, e).cache[g].userId == s.cache[g].userId && Step(s, e).cache[g].kind == s.cache[g].kind
    ensures g !in s.cache && e.gid == g ==>
              Step(s, e).cache[g].userId == e.uid && Step(s, e).cache[g].kind == e.kind
    ensures e.gid != g && g in s.cache ==> Step(s, e).cache[g] == s.cache[g]
    ensures Step(s, e).log == s.log
  {
    assert Step(s, e) == State(AppendFragment(s.cache, e.gid, e.uid, e.kind, e.url, e.now), s.log);
  }

  /** A run of fragments logs nothing, and group g is present after it when it was before or got a fragment. */
  lemma {:induction false} FragmentsMembership(s: State, es: seq<Event>, g: GroupId)
    requires WellFormed(s.cache)
    requires AllFragments(es)
    ensures AllAdmissible(es)
    ensures (g in Run(s, es).cache) <==> (g in s.cache || UrlsFor(es, g) != [])
    ensures Run(s, es).log == s.log
    decreases |es|
  {
    if es != [] {
      AllFragmentsTail(es);
      var s' := Step(s, es[0]);
      FragmentStep(s, es[0], g);
      FragmentsMembership(s', es[1..], g);
      assert Run(s, es) == Run(s', es[1..]);
      assert UrlsFor(es, g) == (if es[0].gid == g then [es[0].url] else []) + UrlsFor(es[1..], g);
    }
  }

  /**
    Fragments interleaved across group ids never mix: after a run of
    fragments every group holds its previous URLs followed by its own
    fragments' URLs in arrival order.
   */
  lemma {:induction false} FragmentsAccumulate(s: State, es: seq<Event>, g: GroupId)
    requires WellFormed(s.cache)
    requires AllFragments(es)
    ensures AllAdmissible(es)
    ensures MediaOf(Run(s, es).cache, g) == MediaOf(s.cache, g) + UrlsFor(es, g)
    decreases |es|
  {
    if es == [] {
      assert MediaOf(s.cache, g) + [] == MediaOf(s.cache, g);
    } else {
      AllFragmentsTail(es);
      var e, rest := es[0], es[1..];
      var s' := Step(s, e);
      var here := if e.gid == g then [e.url] else [];
      FragmentStep(s, e, g);
      FragmentsAccumulate(s', rest, g);
      calc {
        MediaOf(Run(s, es).cache, g);
        { assert Run(s, es) == Run(s', rest); }
        MediaOf(Run(s', rest).cache, g);
        MediaOf(s'.cache, g) + UrlsFor(rest, g);
        (MediaOf(s.cache, g) + here) + UrlsFor(rest, g);
        { ConcatAssoc(MediaOf(s.cache, g), here, UrlsFor(rest, g)); }
        MediaOf(s.cache, g) + (here + UrlsFor(rest, g));
        { assert UrlsFor(es, g) == here + UrlsFor(rest, g); }
        MediaOf(s.cache, g) + UrlsFor(es, g);
      }
    }
  }

  lemma ConcatAssoc(a: seq<Url>, b: seq<Url>, c: seq<Url>)
    ensures (a + b) + c == a + (b + c)
  {
  }

  /**
    Over a run of fragments a group keeps its owner and kind, whatever kind
    later fragments carry; a new group takes both from its first fragment.
   */
  lemma {:induction false} FragmentsKeepOwnerAndKind(s: State, es: seq<Event>, g: GroupId)
    requires WellFormed(s.cache)
    requires AllFragments(es)
    requires g in s.cache || UrlsFor(es, g) != []
    ensures AllAdmissible(es) && g in Run(s, es).cache
    ensures g in s.cache ==>
              Run(s, es).cache[g].userId == s.cache[g].userId && Run(s, es).cache[g].kind == s.cache[g].kind
    ensures g !in s.cache ==>
              && Run(s, es).cache[g].userId == FirstFor(es, g).value.uid
              && Run(s, es).cache[g].kind == FirstFor(es, g).value.kind
    decreases |es|
  {
    FragmentsMembership(s, es, g);
    if es != [] {
      AllFragmentsTail(es);
      var s' := Step(s, es[0]);
      FragmentStep(s, es[0], g);
      assert Run(s, es) == Run(s', es[1..]);
      assert UrlsFor(es, g) == (if es[0].gid == g then [es[0].url] else []) + UrlsFor(es[1..], g);
      if es[0].gid == g {
        assert FirstFor(es, g) == Some(es[0]);
      } else {
        assert FirstFor(es, g) == FirstFor(es[1..], g);
      }
      FragmentsKeepOwnerAndKind(s', es[1..], g);
    }
  }

  /** A group without fragments in the run is left exactly as it was. */
  lemma {:induction false} FragmentsLeaveOthersAlone(s: State, es: seq<Event>, g: GroupId)
    requires WellFormed(s.cache)
    requires AllFragments(es)
    requires g in s.cache && UrlsFor(es, g) == []
    ensures AllAdmissible(es) && g in Run(s, es).cache
    ensures Run(s, es).cache[g] == s.cache[g]
    decreases |es|
  {
    FragmentsMembership(s, es, g);
    if es != [] {
      AllFragmentsTail(es);
      var s' := Step(s, es[0]);
      FragmentStep(s, es[0], g);
      assert Run(s, es) == Run(s', es[1..]);
      assert es[0].gid != g && UrlsFor(es[1..], g) == [];
      FragmentsLeaveOthersAlone(s', es[1..], g);
    }
  }

  /** In a run of fragments all for g, g's URLs are all of them and other groups get none. */
  lemma {:induction false} UrlsForBurst(es: seq<Event>, g: GroupId)
    requires forall i :: 0 <= i < |es| ==> es[i].Fragment? && es[i].gid == g
    ensures |UrlsFor(es, g)| == |es|
    ensures forall i :: 0 <= i < |es| ==> UrlsFor(es, g)[i] == es[i].url
    ensures forall h :: h != g ==> UrlsFor(es, h) == []
    decreases |es|
  {
    if es != [] {
      UrlsForBurst(es[1..], g);
      assert UrlsFor(es, g) == [es[0].url] + UrlsFor(es[1..], g);
      forall i | 1 <= i < |es| ensures UrlsFor(es, g)[i] == es[i].url {
        assert es[1..][i - 1] == es[i];
      }
      forall h | h != g ensures UrlsFor(es, h) == [] {
        assert UrlsFor(es, h) == UrlsFor(es[1..], h);
      }
    }
  }

  // ---------------------------------------------------------------------
  // Flush
  // ---------------------------------------------------------------------

  /**
    A burst of fragments all for a new group g leaves every other group as
    it was and builds g from the first fragment's owner and kind with all
    the burst's URLs.
   */
  lemma BurstBuildsGroup(s: State, es: seq<Event>, g: GroupId)
    requires WellFormed(s.cache)
    requires g !in s.cache
    requires |es| >= 1
    requires forall i :: 0 <= i < |es| ==> es[i].Fragment? && es[i].gid == g && Groupable(es[i].kind)
    ensures AllAdmissible(es) && g in Run(s, es).cache
    ensures Run(s, es).cache - {g} == s.cache
    ensures Run(s, es).cache[g].userId == es[0].uid && Run(s, es).cache[g].kind == es[0].kind
    ensures Run(s, es).cache[g].media == UrlsFor(es, g)
    ensures Run(s, es).log == s.log
  {
    assert AllFragments(es);
    UrlsForBurst(es, g);
    FragmentsMembership(s, es, g);
    FragmentsAccumulate(s, es, g);
    assert FirstFor(es, g) == Some(es[0]);
    FragmentsKeepOwnerAndKind(s, es, g);
    var mid := Run(s, es);
    forall h | h != g ensures (h in mid.cache <==> h in s.cache) && (h in s.cache ==> mid.cache[h] == s.cache[h]) {
      FragmentsMembership(s, es, h);
      if h in s.cache { FragmentsLeaveOthersAlone(s, es, h); }
    }
  }

  /**
    A burst of fragments for a new group g, followed by the check scheduled
    with the final count, logs exactly one row for the first fragment's
    sender with the first fragment's label and all URLs in arrival order,
    and leaves the cache as it was before the burst.
   */
  lemma BurstThenCheckFlushesOnce(s: State, es: seq<Event>, g: GroupId)
    requires WellFormed(s.cache)
    requires g !in s.cache
    requires |es| >= 1
    requires forall i :: 0 <= i < |es| ==> es[i].Fragment? && es[i].gid == g && Groupable(es[i].kind)
    ensures AllAdmissible(es + [CompletionCheck(g, |es|)])
    ensures |UrlsFor(es, g)| == |es| && forall i :: 0 <= i < |es| ==> UrlsFor(es, g)[i] == es[i].url
    ensures Run(s, es + [CompletionCheck(g, |es|)]) ==
              State(s.cache, s.log + [SavedMessage(es[0].uid, "user", ConsolidatedText(es[0].kind, UrlsFor(es, g)))])
  {
    var check := [CompletionCheck(g, |es|)];
    BurstBuildsGroup(s, es, g);
    UrlsForBurst(es, g);
    RunConcat(s, es, check);
    var mid := Run(s, es);
    assert Flushes(mid.cache, g, |es|);
    var fin := CheckStep(mid, g, |es|);
    assert Run(mid, check) == Run(fin, []) == fin;
    assert fin.cache == mid.cache - {g};
  }

  /**
    A check scheduled by an earlier fragment of the burst (its count is
    below the final one) fires after the burst and changes nothing: fragments
    closer together than the delay are never flushed early.
   */
  lemma SupersededCheckIsNoop(s: State, es: seq<Event>, g: GroupId, k: nat)
    requires WellFormed(s.cache)
    requires g !in s.cache
    requires forall i :: 0 <= i < |es| ==> es[i].Fragment? && es[i].gid == g && Groupable(es[i].kind)
    requires k < |es|
    ensures AllAdmissible(es + [CompletionCheck(g, k)])
    ensures Run(s, es + [CompletionCheck(g, k)]) == Run(s, es)
  {
    assert AllFragments(es);
    FragmentsMembership(s, es, g);
    FragmentsAccumulate(s, es, g);
    RunConcat(s, es, [CompletionCheck(g, k)]);
    UrlsForBurst(es, g);
    var mid := Run(s, es);
    assert !Flushes(mid.cache, g, k);
    assert Run(mid, [CompletionCheck(g, k)]) == Run(CheckStep(mid, g, k), []);
  }

  /**
    The events of a burst of fragments as they reach the cache when each
    fragment's check fires after the next fragment: f1, f2, c1, f3, c2, ...,
    fN, c(N-1), where ck is the check scheduled by fk with count k. The
    last fragment's own check, cN, is not included.
   */
  function Interleaved(es: seq<Event>, g: GroupId): (r: seq<Event>)
    ensures |r| == if es == [] then 0 else 2 * |es| - 1
    decreases |es|
  {
    if |es| <= 1 then es
    else Interleaved(es[..|es| - 1], g) + [es[|es| - 1]] + [CompletionCheck(g, |es| - 1)]
  }

  /** In the interleaved order every check but the last fires too early and changes nothing. */
  lemma {:induction false} InterleavedRunsAsBurst(s: State, es: seq<Event>, g: GroupId)
    requires WellFormed(s.cache)
    requires g !in s.cache
    requires forall i :: 0 <= i < |es| ==> es[i].Fragment? && es[i].gid == g && Groupable(es[i].kind)
    ensures AllAdmissible(es) && AllAdmissible(Interleaved(es, g))
    ensures Run(s, Interleaved(es, g)) == Run(s, es)
    decreases |es|
  {
    assert AllFragments(es);
    if es != [] { AllFragmentsTail(es); }
    if |es| >= 2 {
      var n := |es|;
      var init, last, check := es[..n - 1], es[n - 1], CompletionCheck(g, n - 1);
      assert init + [last] == es;
      InterleavedRunsAsBurst(s, init, g);
      var inter := Interleaved(init, g);
      RunSnoc(s, inter, last);
      RunSnoc(s, inter + [last], check);
      RunSnoc(s, init, last);
      RunSnoc(s, es, check);
      SupersededCheckIsNoop(s, es, g, n - 1);
    }
  }

  /**
    N fragments for a new group g, each scheduling a check with the count
    it saw, the checks firing in the interleaved order and the last
    fragment's check last: exactly one row is logged, holding all N URLs in
    arrival order under the first fragment's label, and the cache ends as
    it was before the burst.
   */
  lemma InterleavedChecksFlushOnce(s: State, es: seq<Event>, g: GroupId)
    requires WellFormed(s.cache)
    requires g !in s.cache
    requires |es| >= 1
    requires forall i :: 0 <= i < |es| ==> es[i].Fragment? && es[i].gid == g && Groupable(es[i].kind)
    ensures AllAdmissible(Interleaved(es, g) + [CompletionCheck(g, |es|)])
    ensures |UrlsFor(es, g)| == |es| && forall i :: 0 <= i < |es| ==> UrlsFor(es, g)[i] == es[i].url
    ensures Run(s, Interleaved(es, g) + [CompletionCheck(g, |es|)]) ==
              State(s.cache, s.log + [SavedMessage(es[0].uid, "user", ConsolidatedText(es[0].kind, UrlsFor(es, g)))])
  {
    var check := [CompletionCheck(g, |es|)];
    InterleavedRunsAsBurst(s, es, g);
    RunConcat(s, Interleaved(es, g), check);
    RunConcat(s, es, check);
    BurstThenCheckFlushesOnce(s, es, g);
  }

  /** The checks with counts 1 to n, in that order. */
  function ChecksUpTo(g: GroupId, n: nat): (r: seq<Event>)
    ensures |r| == n
    ensures forall i :: 0 <= i < n ==> r[i] == CompletionCheck(g, i + 1)
  {
    if n == 0 then [] else ChecksUpTo(g, n - 1) + [CompletionCheck(g, n)]
  }

  /** Checks for g whose counts are all below g's current count change nothing. */
  lemma {:induction false} StaleChecksAreNoops(s: State, g: GroupId, n: nat)
    requires WellFormed(s.cache)
    requires g in s.cache && n < |s.cache[g].media|
    ensures AllAdmissible(ChecksUpTo(g, n))
    ensures Run(s, ChecksUpTo(g, n)) == s
    decreases n
  {
    if n == 0 {
      assert Run(s, []) == s;
    } else {
      StaleChecksAreNoops(s, g, n - 1);
      RunSnoc(s, ChecksUpTo(g, n - 1), CompletionCheck(g, n));
      assert !Flushes(s.cache, g, n);
    }
  }

  /** After a burst of N fragments for a new group, the checks with counts 1 to N - 1 change nothing. */
  lemma BurstThenStaleChecks(s: State, es: seq<Event>, g: GroupId)
    requires WellFormed(s.cache)
    requires g !in s.cache
    requires |es| >= 1
    requires forall i :: 0 <= i < |es| ==> es[i].Fragment? && es[i].gid == g && Groupable(es[i].kind)
    ensures AllAdmissible(es) && AllAdmissible(es + ChecksUpTo(g, |es| - 1))
    ensures Run(s, es + ChecksUpTo(g, |es| - 1)) == Run(s, es)
  {
    var stale := ChecksUpTo(g, |es| - 1);
    BurstBuildsGroup(s, es, g);
    UrlsForBurst(es, g);
    var mid := Run(s, es);
    assert g in mid.cache && |mid.cache[g].media| == |es|;
    StaleChecksAreNoops(mid, g, |es| - 1);
    assert AllAdmissible(stale) && Run(mid, stale) == mid;
    RunConcat(s, es, stale);
  }

  /**
    N fragments for a new group g arriving before any of their checks, and
    then the N checks in scheduling order: only the last flushes, with all
    N URLs in arrival order, and the cache ends as it was before the burst.
   */
  lemma BurstThenAllChecksFlushOnce(s: State, es: seq<Event>, g: GroupId)
    requires WellFormed(s.cache)
    requires g !in s.cache
    requires |es| >= 1
    requires forall i :: 0 <= i < |es| ==> es[i].Fragment? && es[i].gid == g && Groupable(es[i].kind)
    ensures AllAdmissible(es + ChecksUpTo(g, |es|))
    ensures |UrlsFor(es, g)| == |es| && forall i :: 0 <= i < |es| ==> UrlsFor(es, g)[i] == es[i].url
    ensures Run(s, es + ChecksUpTo(g, |es|)) ==
              State(s.cache, s.log + [SavedMessage(es[0].uid, "user", ConsolidatedText(es[0].kind, UrlsFor(es, g)))])
  {
    var stale, check := ChecksUpTo(g, |es| - 1), CompletionCheck(g, |es|);
    BurstThenStaleChecks(s, es, g);
    assert ChecksUpTo(g, |es|) == stale + [check];
    assert es + ChecksUpTo(g, |es|) == (es + stale) + [check];
    RunSnoc(s, es + stale, check);
    RunSnoc(s, es, check);
    BurstThenCheckFlushesOnce(s, es, g);
  }

  // ---------------------------------------------------------------------
  // At most one flush per group lifetime
  // ---------------------------------------------------------------------

  /** The events without the completion checks for group g. */
  function DropChecksFor(es: seq<Event>, g: GroupId): (r: seq<Event>)
    ensures AllAdmissible(es) ==> AllAdmissible(r)
    ensures UrlsFor(r, g) == UrlsFor(es, g)
  {
    if es == [] then []
    else if es[0].CompletionCheck? && es[0].gid == g then DropChecksFor(es[1..], g)
    else [es[0]] + DropChecksFor(es[1..], g)
  }

  /**
    Once group g is gone (flushed or reaped), and until a new fragment for g
    arrives, it stays gone and every check for it is a no-op: the run equals
    the run with those checks removed. So no group id is flushed twice in
    one lifetime, and a reaped group is never flushed.
   */
  lemma {:induction false} AbsentGroupIgnoresChecks(s: State, es: seq<Event>, g: GroupId)
    requires WellFormed(s.cache)
    requires AllAdmissible(es)
    requires g !in s.cache
    requires UrlsFor(es, g) == []
    ensures g !in Run(s, es).cache
    ensures Run(s, es) == Run(s, DropChecksFor(es, g))
    decreases |es|
  {
    if es != [] {
      var rest := es[1..];
      assert AllAdmissible(rest) by {
        forall i | 0 <= i < |rest| ensures Admissible(rest[i]) { assert rest[i] == es[i + 1]; }
      }
      assert !(es[0].Fragment? && es[0].gid == g) && UrlsFor(rest, g) == [];
      var s' := Step(s, es[0]);
      assert g !in s'.cache;
      AbsentGroupIgnoresChecks(s', rest, g);
      if es[0].CompletionCheck? && es[0].gid == g {
        assert s' == s;
      } else {
        var d := DropChecksFor(es, g);
        assert d == [es[0]] + DropChecksFor(rest, g);
        assert d[0] == es[0] && d[1..] == DropChecksFor(rest, g);
      }
    }
  }

  /** After a flush of g, later checks for g do nothing until g's next fragment. */
  lemma FlushThenChecksAreNoops(s: State, g: GroupId, k: nat, es: seq<Event>)
    requires WellFormed(s.cache)
    requires AllAdmissible(es)
    requires Flushes(s.cache, g, k)
    requires UrlsFor(es, g) == []
    ensures AllAdmissible([CompletionCheck(g, k)] + es)
    ensures Run(s, [CompletionCheck(g, k)] + es) == Run(CheckStep(s, g, k), DropChecksFor(es, g))
  {
    RunConcat(s, [CompletionCheck(g, k)], es);
    assert Run(s, [CompletionCheck(g, k)]) == Run(CheckStep(s, g, k), []);
    AbsentGroupIgnoresChecks(CheckStep(s, g, k), es, g);
  }

  /** A group the sweep reaps is dropped without a row, and later checks for it do nothing. */
  lemma ReapThenChecksAreNoops(s: State, g: GroupId, now: int, es: seq<Event>)
    requires WellFormed(s.cache)
    requires AllAdmissible(es)
    requires g in s.cache && Expired(s.cache[g], now)
    requires UrlsFor(es, g) == []
    ensures AllAdmissible([SweepAt(now)] + es)
    ensures Run(s, [SweepAt(now)]) == State(Swept(s.cache, now), s.log)
    ensures g !in Run(s, [SweepAt(now)] + es).cache
    ensures Run(s, [SweepAt(now)] + es) == Run(State(Swept(s.cache, now), s.log), DropChecksFor(es, g))
  {
    RunConcat(s, [SweepAt(now)], es);
    assert Run(s, [SweepAt(now)]) == Run(State(Swept(s.cache, now), s.log), []);
    AbsentGroupIgnoresChecks(State(Swept(s.cache, now), s.log), es, g);
  }

  // ---------------------------------------------------------------------
  // Sweep over time
  // ---------------------------------------------------------------------

  /** A later sweep keeps no group an earlier sweep would have reaped. */
  lemma SweepLaterKeepsLess(c: Cache, earlier: int, later: int)
    requires earlier <= later
    ensures Swept(c, later).Keys <= Swept(c, earlier).Keys
  {
  }

  /** Sweeping twice at the same time is sweeping once. */
  lemma SweepIdempotent(c: Cache, now: int)
    ensures Swept(Swept(c, now), now) == Swept(c, now)
  {
  }

  // ---------------------------------------------------------------------
  // Scenarios
  // ---------------------------------------------------------------------

  lemma SingletonCache(c: Cache, g: GroupId, group: Group)
    requires c.Keys == {g} && c[g] == group
    ensures c == map[g := group]
  {
  }

  /** The first fragment of a group into an empty cache. */
  lemma FirstFragmentIntoEmpty(g: GroupId, u: UserId, kind: MediaKind, url: Url, now: int)
    requires Groupable(kind)
    ensures Step(State(map[], []), Fragment(g, u, kind, url, now)) == State(map[g := Group(u, [url], kind, now)], [])
  {
    var r := Step(State(map[], []), Fragment(g, u, kind, url, now));
    assert r.cache[g].media == [] + [url] == [url];
    SingletonCache(r.cache, g, Group(u, [url], kind, now));
  }

  /** A further fragment into a cache holding only its group. */
  lemma NextFragmentIntoSingleton(g: GroupId, group: Group, u: UserId, kind: MediaKind, url: Url, now: int)
    requires Groupable(group.kind) && group.media != [] && Groupable(kind)
    ensures Step(State(map[g := group], []), Fragment(g, u, kind, url, now)) ==
              State(map[g := group.(media := group.media + [url], timestamp := now)], [])
  {
    var r := Step(State(map[g := group], []), Fragment(g, u, kind, url, now));
    SingletonCache(r.cache, g, group.(media := group.media + [url], timestamp := now));
  }

  /** The matching check on a cache holding only its group empties it and logs one row. */
  lemma FlushSingleton(g: GroupId, group: Group)
    requires Groupable(group.kind) && group.media != []
    ensures CheckStep(State(map[g := group], []), g, |group.media|) == State(map[], [FlushRecord(group)])
  {
    var r := CheckStep(State(map[g := group], []), g, |group.media|);
    assert r.cache.Keys == {};
  }

  lemma ThreeImagesText(a: Url, b: Url, c: Url)
    ensures ConsolidatedText(Image, [a, b, c]) == "[images]\n" + a + "\n" + b + "\n" + c
  {
    assert [a, b, c][1..] == [b, c] && [b, c][1..] == [c];
    assert JoinLines([b, c]) == b + "\n" + JoinLines([c]) == b + "\n" + c;
    assert JoinLines([a, b, c]) == a + "\n" + JoinLines([b, c]);
    assert "[images]" + "\n" == "[images]\n";
  }

  /** One more event at the end of a run is one more step. */
  lemma RunSnoc(s: State, es: seq<Event>, e: Event)
    requires WellFormed(s.cache)
    requires AllAdmissible(es) && Admissible(e)
    ensures AllAdmissible(es + [e])
    ensures Run(s, es + [e]) == Step(Run(s, es), e)
  {
    RunConcat(s, es, [e]);
    assert Run(Run(s, es), [e]) == Run(Step(Run(s, es), e), []);
  }

  /** The first two images of the three-image scenario. */
  lemma ThreeImagesFirstTwo(g: GroupId, u: UserId, a: Url, b: Url)
    ensures AllAdmissible([Fragment(g, u, Image, a, 0), Fragment(g, u, Image, b, 0)])
    ensures Run(State(map[], []), [Fragment(g, u, Image, a, 0), Fragment(g, u, Image, b, 0)]) ==
              State(map[g := Group(u, [a, b], Image, 0)], [])
  {
    var e0, e1 := Fragment(g, u, Image, a, 0), Fragment(g, u, Image, b, 0);
    var s0 := State(map[], []);
    assert Run(s0, []) == s0;
    RunSnoc(s0, [], e0);
    assert [] + [e0] == [e0];
    FirstFragmentIntoEmpty(g, u, Image, a, 0);
    RunSnoc(s0, [e0], e1);
    assert [e0] + [e1] == [e0, e1];
    NextFragmentIntoSingleton(g, Group(u, [a], Image, 0), u, Image, b, 0);
    assert [a] + [b] == [a, b];
  }

  /** The first four events of the three-image scenario: the early check fires after b and does nothing. */
  lemma ThreeImagesFirstFour(g: GroupId, u: UserId, a: Url, b: Url, c: Url)
    ensures AllAdmissible([Fragment(g, u, Image, a, 0), Fragment(g, u, Image, b, 0),
                           CompletionCheck(g, 1), Fragment(g, u, Image, c, 1)])
    ensures Run(State(map[], []), [Fragment(g, u, Image, a, 0), Fragment(g, u, Image, b, 0),
                                   CompletionCheck(g, 1), Fragment(g, u, Image, c, 1)]) ==
              State(map[g := Group(u, [a, b, c], Image, 1)], [])
  {
    var e0, e1, e2, e3 := Fragment(g, u, Image, a, 0), Fragment(g, u, Image, b, 0),
                          CompletionCheck(g, 1), Fragment(g, u, Image, c, 1);
    var s0 := State(map[], []);
    var s2 := State(map[g := Group(u, [a, b], Image, 0)], []);
    ThreeImagesFirstTwo(g, u, a, b);
    RunSnoc(s0, [e0, e1], e2);
    assert [e0, e1] + [e2] == [e0, e1, e2];
    assert Step(s2, e2) == s2;
    RunSnoc(s0, [e0, e1, e2], e3);
    assert [e0, e1, e2] + [e3] == [e0, e1, e2, e3];
    NextFragmentIntoSingleton(g, Group(u, [a, b], Image, 0), u, Image, c, 1);
    assert [a, b] + [c] == [a, b, c];
  }

  /**
    Three images a, b, c of group g; each fragment schedules a check with
    the count it saw, and the checks fire in arrival order after the later
    fragments. Only the last check flushes, once, with all three URLs.
   */
  lemma ScenarioThreeImages(g: GroupId, u: UserId, a: Url, b: Url, c: Url)
    ensures
      var es := [Fragment(g, u, Image, a, 0), Fragment(g, u, Image, b, 0),
                 CompletionCheck(g, 1), Fragment(g, u, Image, c, 1),
                 CompletionCheck(g, 2), CompletionCheck(g, 3)];
      AllAdmissible(es) &&
      Run(State(map[], []), es) == State(map[], [SavedMessage(u, "user", "[images]\n" + a + "\n" + b + "\n" + c)])
  {
    var e0, e1, e2, e3 := Fragment(g, u, Image, a, 0), Fragment(g, u, Image, b, 0),
                          CompletionCheck(g, 1), Fragment(g, u, Image, c, 1);
    var e4, e5 := CompletionCheck(g, 2), CompletionCheck(g, 3);
    var s0 := State(map[], []);
    var s4 := State(map[g := Group(u, [a, b, c], Image, 1)], []);
    ThreeImagesFirstFour(g, u, a, b, c);
    RunSnoc(s0, [e0, e1, e2, e3], e4);
    assert [e0, e1, e2, e3] + [e4] == [e0, e1, e2, e3, e4];
    assert Step(s4, e4) == s4;
    RunSnoc(s0, [e0, e1, e2, e3, e4], e5);
    assert [e0, e1, e2, e3, e4] + [e5] == [e0, e1, e2, e3, e4, e5];
    FlushSingleton(g, Group(u, [a, b, c], Image, 1));
    ThreeImagesText(a, b, c);
  }

  /**
    One fragment of group "solo" at time 0 and nothing else: a sweep at 20 keeps
    it (the comparison is strict), a sweep at 21 drops it and nothing is logged.
   */
  lemma ScenarioAbandonedGroup(u: UserId)
    ensures
      var s1 := Step(State(map[], []), Fragment("solo", u, Image, "A", 0));
      && "solo" in Step(s1, SweepAt(20)).cache
      && Step(Step(s1, SweepAt(20)), SweepAt(21)) == State(map[], [])
  {
    var s1 := Step(State(map[], []), Fragment("solo", u, Image, "A", 0));
    FirstFragmentIntoEmpty("solo", u, Image, "A", 0);
    SingletonCache(Swept(s1.cache, 20), "solo", Group(u, ["A"], Image, 0));
    assert Step(s1, SweepAt(20)) == s1;
    assert Swept(s1.cache, 21).Keys == {};
  }

  /**
    An image then a video under the same group "mixed": the video is appended
    and the group stays an image group.
   */
  lemma ScenarioMixedKinds(u: UserId)
    ensures
      var s1 := Step(State(map[], []), Fragment("mixed", u, Image, "A", 0));
      Step(s1, Fragment("mixed", u, Video, "B", 0)).cache == map["mixed" := Group(u, ["A", "B"], Image, 0)]
  {
    FirstFragmentIntoEmpty("mixed", u, Image, "A", 0);
    NextFragmentIntoSingleton("mixed", Group(u, ["A"], Image, 0), u, Video, "B", 0);
    assert ["A"] + ["B"] == ["A", "B"];
  }
}
