/**
 * The two sliding-window limiters over Redis sorted sets: the middleware counts and then adds
 * (src/middleware/rate_limiter.py), check_rate_limit adds and then counts (src/rate_limit.py). Both record
 * rejected requests too, prune on every request, and let an idle key expire.
 */
module RateLimit {
  import Sets
  import opened Wrappers

  type Time = real

  /** A key's sorted set (member and score are the same timestamp) and the moment its TTL runs out. */
  datatype ZSet = ZSet(entries: set<Time>, expiresAt: Time)
  {
    function Live(now: Time): set<Time> {
      if now < expiresAt then entries else {}
    }

    /** The entries after ZREMRANGEBYSCORE key 0 now-window. */
    function Pruned(now: Time, window: Time): set<Time> {
      set t | t in Live(now) && !(0.0 <= t <= now - window)
    }

    /** The key after a request: pruned, the request added, the TTL renewed. */
    function Touched(now: Time, window: Time, slack: Time): ZSet {
      ZSet(Pruned(now, window) + {now}, now + window + slack)
    }
  }

  const NO_KEY := ZSet({}, 0.0)
  const MIDDLEWARE_SLACK: Time := 1.0
  const CHECK_SLACK: Time := 5.0

  // ---- What the stored set means --------------------------------------------------------------------------------

  /** All requests of a key in order of arrival; times never go back. */
  ghost predicate IsHistory(h: seq<Time>) {
    && (forall i | 0 <= i < |h| :: 0.0 <= h[i])
    && (forall i, j | 0 <= i < j < |h| :: h[i] <= h[j])
  }

  ghost predicate IsStrict(h: seq<Time>) {
    forall i, j | 0 <= i < j < |h| :: h[i] < h[j]
  }

  /** The request times of the half-open window (now - window, now]. */
  ghost function Window(h: seq<Time>, now: Time, window: Time): set<Time> {
    set t | t in h && now - window < t <= now
  }

  /** The stored set after the requests h, processed one by one. */
  function StoredAfter(h: seq<Time>, window: Time, slack: Time): ZSet {
    if h == [] then NO_KEY
    else StoredAfter(h[..|h| - 1], window, slack).Touched(h[|h| - 1], window, slack)
  }

  /** One request on a set that is the window of the past: entries leave only because they are too old. */
  lemma PruningFollowsTheWindow(h: seq<Time>, z: ZSet, now: Time, window: Time, slack: Time)
    requires h != [] && h[|h| - 1] <= now && window > 0.0 && slack >= 0.0
    requires forall t | t in h :: 0.0 <= t <= h[|h| - 1]
    requires z == ZSet(Window(h, h[|h| - 1], window), h[|h| - 1] + window + slack)
    ensures z.Pruned(now, window) == Window(h, now, window)
  {
    var last := h[|h| - 1];
    if now < z.expiresAt {
      assert z.Live(now) == Window(h, last, window);
    } else {
      assert forall t | t in h :: t <= now - window;
    }
  }

  lemma LastIsLatest(h: seq<Time>, now: Time)
    requires IsHistory(h + [now])
    ensures IsHistory(h)
    ensures h != [] ==> h[|h| - 1] <= now
    ensures h != [] ==> forall t | t in h :: 0.0 <= t <= h[|h| - 1]
  {
    var all := h + [now];
    assert forall i | 0 <= i < |h| :: h[i] == all[i];
    assert all[|h|] == now;
  }

  /** The request itself joins the pruned set and the window alike. */
  lemma TouchedAfter(h: seq<Time>, now: Time, window: Time, slack: Time)
    requires window > 0.0
    ensures StoredAfter(h + [now], window, slack) == StoredAfter(h, window, slack).Touched(now, window, slack)
    ensures Window(h + [now], now, window) == Window(h, now, window) + {now}
  {
    assert (h + [now])[..|h|] == h;
  }

  /** Pruning and expiry lose nothing and keep nothing: before a request the set is the history's window. */
  lemma {:induction false} StoredIsTheWindow(h: seq<Time>, now: Time, window: Time, slack: Time)
    requires IsHistory(h + [now]) && window > 0.0 && slack >= 0.0
    ensures StoredAfter(h, window, slack).Pruned(now, window) == Window(h, now, window)
    ensures StoredAfter(h + [now], window, slack) == ZSet(Window(h + [now], now, window), now + window + slack)
    decreases |h|
  {
    LastIsLatest(h, now);
    if h == [] {
      assert Window(h, now, window) == {};
    } else {
      assert h == h[..|h| - 1] + [h[|h| - 1]];
      StoredIsTheWindow(h[..|h| - 1], h[|h| - 1], window, slack);
      PruningFollowsTheWindow(h, StoredAfter(h, window, slack), now, window, slack);
    }
    TouchedAfter(h, now, window, slack);
  }

  // ---- Who is admitted ------------------------------------------------------------------------------------------

  /** The middleware: fewer than `limit` earlier requests stand in the set. */
  ghost predicate CountFirstAdmits(h: seq<Time>, now: Time, window: Time, limit: nat) {
    |StoredAfter(h, window, MIDDLEWARE_SLACK).Pruned(now, window)| < limit
  }

  /** check_rate_limit: with this request added, at most `limit` stand in the set. */
  ghost predicate AddFirstAdmits(h: seq<Time>, now: Time, window: Time, limit: nat) {
    |StoredAfter(h + [now], window, CHECK_SLACK).entries| <= limit
  }

  /**
   * The two limiters decide alike, with one exception that is exactly this: a request whose timestamp is in
   * the set already, when the set is full. With strictly increasing timestamps there is none.
   */
  lemma LimitersDisagreeOnlyOnEqualTimestamps(h: seq<Time>, now: Time, window: Time, limit: nat)
    requires IsHistory(h + [now]) && window > 0.0
    ensures (CountFirstAdmits(h, now, window, limit) <==> AddFirstAdmits(h, now, window, limit))
            <==> !(now in h && |Window(h, now, window)| == limit)
    ensures IsStrict(h + [now]) ==>
              (CountFirstAdmits(h, now, window, limit) <==> AddFirstAdmits(h, now, window, limit))
  {
    StoredIsTheWindow(h, now, window, MIDDLEWARE_SLACK);
    StoredIsTheWindow(h, now, window, CHECK_SLACK);
    assert Window(h + [now], now, window) == Window(h, now, window) + {now};
    assert now in h <==> now in Window(h, now, window);
    AddOne(Window(h, now, window), now);
  }

  /** Whether request k of the history was admitted, by the window that the sorted set stands for. */
  ghost predicate Admitted(h: seq<Time>, k: nat, window: Time, limit: nat)
    requires k < |h|
  {
    CountFirstAdmits(h[..k], h[k], window, limit)
  }

  ghost function Times(h: seq<Time>, lo: nat, hi: nat): set<Time>
    requires lo <= hi <= |h|
  {
    set i | lo <= i < hi :: h[i]
  }

  lemma {:induction false} DistinctTimes(h: seq<Time>, lo: nat, hi: nat)
    requires lo <= hi <= |h| && IsStrict(h)
    ensures |Times(h, lo, hi)| == hi - lo
    decreases hi
  {
    if lo < hi {
      DistinctTimes(h, lo, hi - 1);
      assert Times(h, lo, hi) == Times(h, lo, hi - 1) + {h[hi - 1]};
      assert h[hi - 1] !in Times(h, lo, hi - 1);
    }
  }

  lemma AddOne(s: set<Time>, t: Time)
    ensures |s + {t}| == |s| + if t in s then 0 else 1
  {
    if t in s {
      assert s + {t} == s;
    }
  }

  /** The earlier requests that request k still finds in the set, by position. */
  ghost function Recent(h: seq<Time>, k: nat, window: Time): set<Time>
    requires k < |h|
  {
    set i | 0 <= i < k && h[k] - window < h[i] :: h[i]
  }

  lemma WindowIsRecent(h: seq<Time>, k: nat, window: Time)
    requires IsStrict(h) && k < |h|
    ensures Window(h[..k], h[k], window) == Recent(h, k, window)
  {
    assert forall i | 0 <= i < k :: h[..k][i] == h[i] && h[i] <= h[k];
  }

  lemma StoredIsRecent(h: seq<Time>, k: nat, window: Time)
    requires IsHistory(h) && IsStrict(h) && window > 0.0 && k < |h|
    ensures StoredAfter(h[..k], window, MIDDLEWARE_SLACK).Pruned(h[k], window) == Recent(h, k, window)
  {
    assert h[..k] + [h[k]] == h[..k + 1];
    StoredIsTheWindow(h[..k], h[k], window, MIDDLEWARE_SLACK);
    WindowIsRecent(h, k, window);
  }

  /** If the requests before position lo are too old, at most the k - lo from there on are recent. */
  lemma RecentAtMost(h: seq<Time>, k: nat, window: Time, lo: nat)
    requires IsStrict(h) && lo <= k < |h|
    requires lo > 0 ==> h[lo - 1] <= h[k] - window
    ensures |Recent(h, k, window)| <= k - lo
  {
    DistinctTimes(h, lo, k);
    assert forall i | 0 <= i < lo :: h[i] <= h[k] - window;
    assert Recent(h, k, window) <= Times(h, lo, k);
    Sets.SubsetIsNoLarger(Recent(h, k, window), Times(h, lo, k));
  }

  lemma RecentAtLeast(h: seq<Time>, k: nat, window: Time, lo: nat)
    requires IsStrict(h) && lo <= k < |h|
    requires lo < k ==> h[k] - window < h[lo]
    ensures |Recent(h, k, window)| >= k - lo
  {
    DistinctTimes(h, lo, k);
    assert forall i | lo <= i < k :: h[lo] <= h[i];
    assert Times(h, lo, k) <= Recent(h, k, window);
    Sets.SubsetIsNoLarger(Times(h, lo, k), Recent(h, k, window));
  }

  /** Exactly which requests are admitted: those at least a window after the request `limit` places before. */
  lemma AdmittedIff(h: seq<Time>, k: nat, window: Time, limit: nat)
    requires IsHistory(h) && IsStrict(h) && window > 0.0 && k < |h|
    ensures Admitted(h, k, window, limit) <==> k < limit || h[k] - h[k - limit] >= window
  {
    StoredIsRecent(h, k, window);
    if k < limit {
      RecentAtMost(h, k, window, 0);
    } else if h[k] - h[k - limit] >= window {
      RecentAtMost(h, k, window, k - limit + 1);
    } else {
      RecentAtLeast(h, k, window, k - limit);
    }
  }

  /** A set of admitted requests, any two of them less than a window apart. */
  ghost predicate AdmittedTogether(h: seq<Time>, s: set<nat>, window: Time, limit: nat) {
    && (forall k <- s :: k < |h| && Admitted(h, k, window, limit))
    && (forall i, k | i in s && k in s :: h[k] - h[i] < window)
  }

  lemma {:induction false} WithinSpan(s: set<nat>, lo: nat, hi: nat)
    requires forall k <- s :: lo <= k <= hi
    requires lo <= hi
    ensures |s| <= hi - lo + 1
    decreases hi
  {
    if lo == hi {
      assert s <= {lo};
      assert s == {lo} || s == {};
    } else {
      var rest := s - {hi};
      WithinSpan(rest, lo, hi - 1);
      assert s <= rest + {hi};
      if hi in s {
        assert s == rest + {hi};
      } else {
        assert s == rest;
      }
    }
  }

  lemma {:induction false} LeastAndGreatest(s: set<nat>) returns (lo: nat, hi: nat)
    requires s != {}
    ensures lo in s && hi in s && forall k <- s :: lo <= k <= hi
    decreases |s|
  {
    var x :| x in s;
    var rest := s - {x};
    if rest == {} {
      assert s == {x};
      return x, x;
    }
    lo, hi := LeastAndGreatest(rest);
    assert forall k <- s :: k == x || k in rest;
    if x < lo {
      lo := x;
    }
    if x > hi {
      hi := x;
    }
  }

  /** No more than `limit` admitted requests lie less than a window apart. */
  lemma AdmittedTogetherAreFew(h: seq<Time>, s: set<nat>, window: Time, limit: nat)
    requires IsHistory(h) && IsStrict(h) && window > 0.0
    requires AdmittedTogether(h, s, window, limit)
    ensures |s| <= limit
  {
    if s != {} {
      var lo, hi := LeastAndGreatest(s);
      AdmittedIff(h, hi, window, limit);
      assert hi - lo < limit;
      WithinSpan(s, lo, hi);
    }
  }

  /** The promise of a sliding window: any window-long interval, open at either end, has at most `limit` admissions. */
  lemma EveryWindowObeysTheLimit(h: seq<Time>, a: Time, window: Time, limit: nat)
    requires IsHistory(h) && IsStrict(h) && window > 0.0
    ensures |set k: nat | k < |h| && a < h[k] <= a + window && Admitted(h, k, window, limit)| <= limit
    ensures |set k: nat | k < |h| && a <= h[k] < a + window && Admitted(h, k, window, limit)| <= limit
  {
    var leftOpen := set k: nat | k < |h| && a < h[k] <= a + window && Admitted(h, k, window, limit);
    var rightOpen := set k: nat | k < |h| && a <= h[k] < a + window && Admitted(h, k, window, limit);
    AdmittedTogetherAreFew(h, leftOpen, window, limit);
    AdmittedTogetherAreFew(h, rightOpen, window, limit);
  }

  lemma StoredBefore(h: seq<Time>, k: nat, window: Time)
    requires IsHistory(h) && window > 0.0 && k < |h|
    ensures StoredAfter(h[..k], window, MIDDLEWARE_SLACK).Pruned(h[k], window) == Window(h[..k], h[k], window)
  {
    assert h[..k] + [h[k]] == h[..k + 1];
    StoredIsTheWindow(h[..k], h[k], window, MIDDLEWARE_SLACK);
  }

  lemma EarlierInWindow(h: seq<Time>, k: nat, t: Time, window: Time)
    requires IsHistory(h) && k < |h| && t in h && h[k] - window < t < h[k]
    ensures t in Window(h[..k], h[k], window)
  {
    var m :| 0 <= m < |h| && h[m] == t;
    assert h[..k][m] == t;
  }

  ghost predicate AdmittedAt(h: seq<Time>, t: Time, window: Time, limit: nat) {
    exists k :: 0 <= k < |h| && h[k] == t && Admitted(h, k, window, limit)
  }

  lemma TimesHavePositions(h: seq<Time>, times: set<Time>, window: Time, limit: nat) returns (positions: set<nat>)
    requires forall t <- times :: AdmittedAt(h, t, window, limit)
    ensures forall k <- positions :: k < |h| && h[k] in times && Admitted(h, k, window, limit)
    ensures forall t <- times :: exists k :: k in positions && h[k] == t
  {
    positions := set k: nat | k < |h| && h[k] in times && Admitted(h, k, window, limit);
    forall t <- times
      ensures exists k :: k in positions && h[k] == t
    {
      assert AdmittedAt(h, t, window, limit);
      var k :| 0 <= k < |h| && h[k] == t && Admitted(h, k, window, limit);
      assert k in positions;
    }
  }

  /** The last request admitted at one of these times, if there are any. */
  lemma LastAdmitted(h: seq<Time>, times: set<Time>, window: Time, limit: nat) returns (last: Option<nat>)
    requires IsHistory(h) && forall t <- times :: AdmittedAt(h, t, window, limit)
    ensures last.None? ==> times == {}
    ensures last.Some? ==>
              && last.value < |h| && h[last.value] in times && Admitted(h, last.value, window, limit)
              && forall t <- times :: t in h && t <= h[last.value]
  {
    var positions := TimesHavePositions(h, times, window, limit);
    if positions == {} {
      assert forall t: Time :: t !in times;
      assert times == {};
      return None;
    }
    var least, greatest := LeastAndGreatest(positions);
    LaterPositionLaterTime(h, times, positions, greatest);
    return Some(greatest);
  }

  lemma LaterPositionLaterTime(h: seq<Time>, times: set<Time>, positions: set<nat>, greatest: nat)
    requires IsHistory(h) && greatest in positions
    requires forall k <- positions :: k < |h| && k <= greatest
    requires forall t <- times :: exists k :: k in positions && h[k] == t
    ensures forall t <- times :: t in h && t <= h[greatest]
  {
    forall t <- times
      ensures t in h && t <= h[greatest]
    {
      var k :| k in positions && h[k] == t;
    }
  }

  lemma AdmittedTimesAreFew(h: seq<Time>, times: set<Time>, window: Time, limit: nat)
    requires IsHistory(h) && window > 0.0
    requires forall t <- times :: AdmittedAt(h, t, window, limit)
    requires forall t, u | t in times && u in times :: t - u < window
    ensures |times| <= limit
  {
    var last := LastAdmitted(h, times, window, limit);
    if last.Some? {
      var k := last.value;
      StoredBefore(h, k, window);
      forall t <- times - {h[k]}
        ensures t in Window(h[..k], h[k], window)
      {
        EarlierInWindow(h, k, t, window);
      }
      Sets.SubsetIsNoLarger(times - {h[k]}, Window(h[..k], h[k], window));
    }
  }

  /**
   * What is left of the promise when timestamps may be equal: any window-long interval has admissions at no more
   * than `limit` different times.
   */
  lemma EveryWindowObeysTheLimitByTime(h: seq<Time>, a: Time, window: Time, limit: nat)
    requires IsHistory(h) && window > 0.0
    ensures |set t | t in h && a < t <= a + window && AdmittedAt(h, t, window, limit)| <= limit
    ensures |set t | t in h && a <= t < a + window && AdmittedAt(h, t, window, limit)| <= limit
  {
    var leftOpen := set t | t in h && a < t <= a + window && AdmittedAt(h, t, window, limit);
    var rightOpen := set t | t in h && a <= t < a + window && AdmittedAt(h, t, window, limit);
    AdmittedTimesAreFew(h, leftOpen, window, limit);
    AdmittedTimesAreFew(h, rightOpen, window, limit);
  }

  lemma SameInstantWindow(h: seq<Time>, k: nat, window: Time)
    requires k < |h| && window > 0.0 && forall i | 0 <= i < |h| :: h[i] == h[k]
    ensures Window(h[..k], h[k], window) == if k == 0 then {} else {h[k]}
  {
    if k > 0 {
      assert h[..k][0] == h[k];
    }
  }

  /** Requests of one instant share one entry: from a limit of two on, all of them are admitted, however many. */
  lemma SameInstantIsAdmitted(h: seq<Time>, k: nat, window: Time, limit: nat)
    requires k < |h| && window > 0.0 && h[k] >= 0.0 && forall i | 0 <= i < |h| :: h[i] == h[k]
    ensures Admitted(h, k, window, limit) <==> limit >= 2 || (limit == 1 && k == 0)
  {
    StoredBefore(h, k, window);
    SameInstantWindow(h, k, window);
  }

  // ---- All histories, repeated timestamps included --------------------------------------------------------------

  /** The different request times less than a window before t. */
  ghost function TimesBefore(h: seq<Time>, t: Time, window: Time): set<Time> {
    set u | u in h && t - window < u < t
  }

  /** Request k repeats the timestamp of an earlier one. */
  predicate IsRepeat(h: seq<Time>, k: nat)
    requires k < |h|
  {
    k > 0 && h[k - 1] == h[k]
  }

  lemma RepeatIff(h: seq<Time>, k: nat)
    requires IsHistory(h) && k < |h|
    ensures IsRepeat(h, k) <==> h[k] in h[..k]
  {
    if h[k] in h[..k] {
      var i :| 0 <= i < k && h[..k][i] == h[k];
      assert h[i] <= h[k - 1] <= h[k];
    }
    if IsRepeat(h, k) {
      assert h[..k][k - 1] == h[k];
    }
  }

  lemma EarlierRequestsTimes(h: seq<Time>, k: nat, window: Time)
    requires IsHistory(h) && window > 0.0 && k < |h|
    ensures Window(h[..k], h[k], window) == TimesBefore(h, h[k], window) + if IsRepeat(h, k) then {h[k]} else {}
  {
    RepeatIff(h, k);
    forall u
      ensures u in Window(h[..k], h[k], window) <==>
              u in TimesBefore(h, h[k], window) || (IsRepeat(h, k) && u == h[k])
    {
      if u in TimesBefore(h, h[k], window) {
        EarlierInWindow(h, k, u, window);
      }
    }
  }

  /**
   * Exactly which requests are admitted, in any history: the first of an instant if fewer than `limit` different times
   * lie in the window before it, a repeat if at most `limit` - 2 do.
   */
  lemma AdmittedByTimesIff(h: seq<Time>, k: nat, window: Time, limit: nat)
    requires IsHistory(h) && window > 0.0 && k < |h|
    ensures Admitted(h, k, window, limit) <==>
            |TimesBefore(h, h[k], window)| + (if IsRepeat(h, k) then 2 else 1) <= limit
  {
    StoredBefore(h, k, window);
    EarlierRequestsTimes(h, k, window);
    if IsRepeat(h, k) {
      AddOne(TimesBefore(h, h[k], window), h[k]);
    }
  }

  datatype Share = All | OnlyFirst | NoneOfThem

  /** What becomes of the requests of one instant, by the number of different times in the window before it. */
  ghost function ShareOf(h: seq<Time>, t: Time, window: Time, limit: nat): Share {
    var n := |TimesBefore(h, t, window)|;
    if n + 2 <= limit then All else if n + 1 <= limit then OnlyFirst else NoneOfThem
  }

  lemma ShareDecides(h: seq<Time>, k: nat, window: Time, limit: nat)
    requires IsHistory(h) && window > 0.0 && k < |h|
    ensures Admitted(h, k, window, limit) <==>
            match ShareOf(h, h[k], window, limit)
            case All => true
            case OnlyFirst => !IsRepeat(h, k)
            case NoneOfThem => false
  {
    AdmittedByTimesIff(h, k, window, limit);
  }

  /** A window-long interval that starts at a: with its end, or with its start. */
  predicate InInterval(t: Time, a: Time, window: Time, withEnd: bool) {
    if withEnd then a < t <= a + window else a <= t < a + window
  }

  ghost function AdmittedIn(h: seq<Time>, a: Time, window: Time, limit: nat, withEnd: bool): set<nat> {
    set k: nat | k < |h| && InInterval(h[k], a, window, withEnd) && Admitted(h, k, window, limit)
  }

  /** Said of request times alone: the instants of the interval that are not refused altogether. */
  ghost function Instants(h: seq<Time>, a: Time, window: Time, limit: nat, withEnd: bool): set<Time> {
    set t | t in h && InInterval(t, a, window, withEnd) && !ShareOf(h, t, window, limit).NoneOfThem?
  }

  /** Said of request times alone: the repeats, in the interval, of instants that are let through in full. */
  ghost function Repeats(h: seq<Time>, a: Time, window: Time, limit: nat, withEnd: bool): set<nat> {
    set k: nat | k < |h| && InInterval(h[k], a, window, withEnd) && IsRepeat(h, k) &&
                 ShareOf(h, h[k], window, limit).All?
  }

  ghost function Firsts(h: seq<Time>, a: Time, window: Time, limit: nat, withEnd: bool): set<nat> {
    set k: nat | k < |h| && InInterval(h[k], a, window, withEnd) && !IsRepeat(h, k) &&
                 !ShareOf(h, h[k], window, limit).NoneOfThem?
  }

  lemma AdmittedAreFirstsAndRepeats(h: seq<Time>, a: Time, window: Time, limit: nat, withEnd: bool)
    requires IsHistory(h) && window > 0.0
    ensures |AdmittedIn(h, a, window, limit, withEnd)| ==
            |Firsts(h, a, window, limit, withEnd)| + |Repeats(h, a, window, limit, withEnd)|
  {
    var firsts, repeats := Firsts(h, a, window, limit, withEnd), Repeats(h, a, window, limit, withEnd);
    forall k: nat | k < |h|
      ensures Admitted(h, k, window, limit) <==>
              match ShareOf(h, h[k], window, limit)
              case All => true
              case OnlyFirst => !IsRepeat(h, k)
              case NoneOfThem => false
    {
      ShareDecides(h, k, window, limit);
    }
    assert AdmittedIn(h, a, window, limit, withEnd) == firsts + repeats;
    assert firsts !! repeats;
  }

  lemma {:induction false} TimesOfPositions(h: seq<Time>, positions: set<nat>)
    requires forall k <- positions :: k < |h|
    requires forall i, j | i in positions && j in positions && i != j :: h[i] != h[j]
    ensures |set k | k in positions :: h[k]| == |positions|
    decreases |positions|
  {
    var times := set k | k in positions :: h[k];
    if positions == {} {
      assert times == {};
    } else {
      var x :| x in positions;
      var rest := positions - {x};
      TimesOfPositions(h, rest);
      var others := set k | k in rest :: h[k];
      assert times == others + {h[x]};
      assert h[x] !in others;
    }
  }

  /** Every time of a history has a first request. */
  lemma FirstOfInstant(h: seq<Time>, t: Time) returns (k: nat)
    requires IsHistory(h) && t in h
    ensures k < |h| && h[k] == t && !IsRepeat(h, k)
  {
    k :| k < |h| && h[k] == t;
    while IsRepeat(h, k)
      invariant k < |h| && h[k] == t
      decreases k
    {
      k := k - 1;
    }
  }

  lemma DistinctFirsts(h: seq<Time>, i: nat, j: nat)
    requires IsHistory(h) && i < j < |h| && !IsRepeat(h, j)
    ensures h[i] < h[j]
  {
    assert h[i] <= h[j - 1] <= h[j];
  }

  lemma FirstsAreInstants(h: seq<Time>, a: Time, window: Time, limit: nat, withEnd: bool)
    requires IsHistory(h)
    ensures |Firsts(h, a, window, limit, withEnd)| == |Instants(h, a, window, limit, withEnd)|
  {
    var firsts := Firsts(h, a, window, limit, withEnd);
    forall i, j | i in firsts && j in firsts && i != j
      ensures h[i] != h[j]
    {
      if i < j {
        DistinctFirsts(h, i, j);
      } else {
        DistinctFirsts(h, j, i);
      }
    }
    TimesOfPositions(h, firsts);
    forall t
      ensures t in Instants(h, a, window, limit, withEnd) <==> t in set k | k in firsts :: h[k]
    {
      if t in Instants(h, a, window, limit, withEnd) {
        var k := FirstOfInstant(h, t);
        assert k in firsts;
      }
    }
    assert Instants(h, a, window, limit, withEnd) == set k | k in firsts :: h[k];
  }

  lemma InstantsAreAdmissionTimes(h: seq<Time>, a: Time, window: Time, limit: nat, withEnd: bool)
    requires IsHistory(h) && window > 0.0
    ensures |Instants(h, a, window, limit, withEnd)| <= limit
  {
    var instants := Instants(h, a, window, limit, withEnd);
    forall t <- instants
      ensures AdmittedAt(h, t, window, limit)
    {
      var k := FirstOfInstant(h, t);
      ShareDecides(h, k, window, limit);
    }
    AdmittedTimesAreFew(h, instants, window, limit);
  }

  /**
   * When a window exceeds the limit, in any history and in terms of the request times alone: exactly if the repeats of
   * instants let through in full outnumber the places that the admitted instants, never more than `limit`, leave.
   */
  lemma WindowExceedsIff(h: seq<Time>, a: Time, window: Time, limit: nat, withEnd: bool)
    requires IsHistory(h) && window > 0.0
    ensures |Instants(h, a, window, limit, withEnd)| <= limit
    ensures AdmittedIn(h, a, window, limit, withEnd) ==
            if withEnd then set k: nat | k < |h| && a < h[k] <= a + window && Admitted(h, k, window, limit)
            else set k: nat | k < |h| && a <= h[k] < a + window && Admitted(h, k, window, limit)
    ensures |AdmittedIn(h, a, window, limit, withEnd)| > limit <==>
            |Repeats(h, a, window, limit, withEnd)| > limit - |Instants(h, a, window, limit, withEnd)|
  {
    AdmittedAreFirstsAndRepeats(h, a, window, limit, withEnd);
    FirstsAreInstants(h, a, window, limit, withEnd);
    InstantsAreAdmissionTimes(h, a, window, limit, withEnd);
  }

  /** After a quiet window one is admitted if the limit is positive; a client that never slows down never is again. */
  lemma QuietAndBusyClients(h: seq<Time>, k: nat, window: Time, limit: nat)
    requires IsHistory(h) && IsStrict(h) && window > 0.0 && k < |h|
    ensures limit >= 1 && (k == 0 || h[k] - h[k - 1] >= window) ==> Admitted(h, k, window, limit)
    ensures (forall i | limit <= i <= k :: h[i] - h[i - limit] < window) && k >= limit ==>
              forall i | limit <= i <= k :: !Admitted(h, i, window, limit)
  {
    AdmittedIff(h, k, window, limit);
    if 1 <= limit <= k {
      assert h[k - limit] <= h[k - 1];
    }
    if (forall i | limit <= i <= k :: h[i] - h[i - limit] < window) && k >= limit {
      forall i | limit <= i <= k
        ensures !Admitted(h, i, window, limit)
      {
        AdmittedIff(h, i, window, limit);
      }
    }
  }

  // ---- Retry-After ----------------------------------------------------------------------------------------------

  ghost predicate IsOldest(entries: set<Time>, oldest: Time) {
    oldest in entries && forall t <- entries :: oldest <= t
  }

  function RetryAfter(oldest: Time, now: Time, window: Time): int {
    var seconds := (oldest + window - now).Floor;
    if seconds > 1 then seconds else 1
  }

  ghost predicate IsRetryAfter(seconds: int, entries: set<Time>, now: Time, window: Time) {
    exists oldest :: IsOldest(entries, oldest) && IsSecondsUntil(seconds, oldest + window - now)
  }

  /** The whole seconds of a waiting time, but at least one. */
  ghost predicate IsSecondsUntil(seconds: int, wait: Time) {
    if wait >= 1.0 then seconds as real <= wait < seconds as real + 1.0 else seconds == 1
  }

  lemma RetryAfterIsSeconds(oldest: Time, now: Time, window: Time)
    ensures IsSecondsUntil(RetryAfter(oldest, now, window), oldest + window - now)
  {
  }

  lemma WindowAsTimes(h: seq<Time>, window: Time, oldest: Time) returns (first: nat)
    requires IsHistory(h) && IsStrict(h) && h != []
    requires IsOldest(Window(h, h[|h| - 1], window), oldest)
    ensures first < |h| && h[first] == oldest
    ensures |Window(h, h[|h| - 1], window)| == |h| - first
  {
    first :| first < |h| && h[first] == oldest;
    var w := Window(h, h[|h| - 1], window);
    forall t
      ensures t in w <==> t in Times(h, first, |h|)
    {
      if t in w {
        var i :| 0 <= i < |h| && h[i] == t;
        assert oldest <= t;
        assert first <= i;
      }
      if t in Times(h, first, |h|) {
        var i :| first <= i < |h| && h[i] == t;
        assert first < i ==> h[first] < h[i];
        assert i < |h| - 1 ==> h[i] < h[|h| - 1];
      }
    }
    assert w == Times(h, first, |h|);
    DistinctTimes(h, first, |h|);
  }

  /**
   * check_rate_limit means its retry_after to be the precise time at which the oldest entry leaves the window.
   * One slot is then not enough, because the rejected request took one itself: a client that waits in silence
   * and retries then (or at any earlier moment) is rejected again. It is admitted exactly from the moment the
   * request `limit` places back has left the window.
   */
  lemma RetryAfterIsTooSoon(h: seq<Time>, retryAt: Time, window: Time, limit: nat, oldest: Time)
    requires IsHistory(h + [retryAt]) && IsStrict(h + [retryAt]) && window > 0.0 && h != []
    requires IsOldest(Window(h, h[|h| - 1], window), oldest)
    requires |Window(h, h[|h| - 1], window)| > limit
    ensures AddFirstAdmits(h, retryAt, window, limit) <==>
              1 <= limit <= |h| && retryAt - h[|h| - limit] >= window
    ensures retryAt <= oldest + window ==> !AddFirstAdmits(h, retryAt, window, limit)
    ensures oldest + window - h[|h| - 1] >= 1.0
            && retryAt == h[|h| - 1] + RetryAfter(oldest, h[|h| - 1], window) as real ==>
              !AddFirstAdmits(h, retryAt, window, limit)
  {
    var all := h + [retryAt];
    LimitersDisagreeOnlyOnEqualTimestamps(h, retryAt, window, limit);
    assert IsHistory(h) && IsStrict(h) by {
      assert forall i | 0 <= i < |h| :: h[i] == all[i];
    }
    var first := WindowAsTimes(h, window, oldest);
    AdmittedIff(all, |h|, window, limit);
    assert all[..|h|] == h;
    assert all[|h| - limit] == if limit == 0 then retryAt else h[|h| - limit];
    if limit >= 1 {
      assert h[first] < h[|h| - limit];
    }
  }

  /** The middleware answers 429 with the whole window as Retry-After, and that is long enough. */
  lemma WaitingAWindowIsEnough(h: seq<Time>, retryAt: Time, window: Time, limit: nat)
    requires IsHistory(h + [retryAt]) && IsStrict(h + [retryAt]) && window > 0.0 && h != []
    requires retryAt >= h[|h| - 1] + window
    ensures CountFirstAdmits(h, retryAt, window, limit) <==> limit >= 1
  {
    var all := h + [retryAt];
    assert all[..|h|] == h && all[|h|] == retryAt && all[|h| - 1] == h[|h| - 1];
    AdmittedIff(all, |h|, window, limit);
    if 1 <= limit <= |h| {
      assert all[|h| - limit] <= all[|h| - 1];
    }
  }

  // ---- The two entry points -------------------------------------------------------------------------------------

  datatype Response =
    | Passed(remaining: nat, reset: int)
    | TooManyRequests(retryAfter: Time)
    | Exempt

  datatype Verdict = Allowed | Exceeded(retryAfter: int)

  /** Where Redis fails: before the pipeline takes effect, after it, or in the look-up of the oldest entry. */
  datatype RedisError = NoError | NotSent | ReplyLost | RangeFails

  ghost function Older(entries: set<Time>, bound: Time): set<Time> {
    set t | t in entries && t < bound
  }

  /** ZRANGE key 0 0: the entry with the least score. */
  method Oldest(entries: set<Time>, member: Time) returns (oldest: Time)
    requires member in entries
    ensures IsOldest(entries, oldest)
  {
    oldest := member;
    while true
      invariant oldest in entries
      decreases |Older(entries, oldest)|
    {
      if t :| t in entries && t < oldest {
        AddOne(Older(entries, t), t);
        Sets.SubsetIsNoLarger(Older(entries, t) + {t}, Older(entries, oldest));
        oldest := t;
      } else {
        break;
      }
    }
  }

  /**
   * Entry by entry: unless the key has expired, the times of the last window stay; this request's joins them, and the
   * key lives on for a window and `slack` seconds.
   */
  ghost predicate IsTouched(before: ZSet, after: ZSet, now: Time, window: Time, slack: Time) {
    && after.expiresAt == now + window + slack
    && forall t: Time :: t in after.entries <==>
         t == now || (t in before.entries && now < before.expiresAt && (t < 0.0 || t > now - window))
  }

  class RedisStore {
    var zsets: map<string, ZSet>
    var healthy: bool

    constructor ()
      ensures zsets == map[] && healthy
    {
      zsets, healthy := map[], true;
    }

    function Get(key: string): ZSet
      reads this
    {
      if key in zsets then zsets[key] else NO_KEY
    }

    method ZRemRangeByScore(key: string, min: Time, max: Time, now: Time)
      modifies this`zsets
      ensures key in zsets && zsets == old(zsets)[key := zsets[key]]
      ensures zsets[key].entries == set t | t in old(Get(key)).Live(now) && !(min <= t <= max)
    {
      var live := Get(key).Live(now);
      var kept := set t | t in live && !(min <= t <= max);
      zsets := zsets[key := ZSet(kept, Get(key).expiresAt)];
    }

    method ZAdd(key: string, score: Time)
      requires key in zsets
      modifies this`zsets
      ensures zsets == old(zsets)[key := old(zsets)[key].(entries := old(zsets)[key].entries + {score})]
    {
      zsets := zsets[key := zsets[key].(entries := zsets[key].entries + {score})];
    }

    method Expire(key: string, at: Time)
      requires key in zsets
      modifies this`zsets
      ensures zsets == old(zsets)[key := old(zsets)[key].(expiresAt := at)]
    {
      zsets := zsets[key := zsets[key].(expiresAt := at)];
    }

    /** RateLimiterMiddleware.dispatch up to the call of the next handler. */
    method Dispatch(exemptPath: bool, key: string, now: Time, window: nat, limit: nat) returns (r: Response)
      modifies this`zsets
      ensures exemptPath ==> r == Exempt && zsets == old(zsets)
      ensures !exemptPath ==>
                && zsets == old(zsets)[key := old(Get(key)).Touched(now, window as real, MIDDLEWARE_SLACK)]
                && IsTouched(old(Get(key)), zsets[key], now, window as real, 1.0)
                && (r.TooManyRequests? <==> |old(Get(key)).Pruned(now, window as real)| >= limit)
                && (r.TooManyRequests? ==> r.retryAfter == window as real)
                && (!r.TooManyRequests? ==>
                      && r.Passed? && r.reset == (now + window as real).Floor
                      && r.remaining + |old(Get(key)).Pruned(now, window as real)| + 1 == limit)
    {
      if exemptPath {
        return Exempt;
      }
      ZRemRangeByScore(key, 0.0, now - window as real, now);
      var currentCount := |zsets[key].entries|;
      ghost var counted := zsets[key].entries;
      ZAdd(key, now);
      Expire(key, now + window as real + MIDDLEWARE_SLACK);
      assert counted == old(Get(key)).Pruned(now, window as real);
      assert zsets[key].entries == counted + {now};
      if currentCount >= limit {
        return TooManyRequests(window as real);
      }
      return Passed(limit - currentCount - 1, (now + window as real).Floor);
    }

    /** check_rate_limit: fails open when Redis is down, and on every error of Redis. */
    method CheckRateLimit(key: string, now: Time, limit: nat, window: nat, error: RedisError) returns (r: Verdict)
      modifies this`zsets
      ensures !healthy || error == NotSent ==> r == Allowed && zsets == old(zsets)
      ensures healthy && error != NotSent ==>
                && zsets == old(zsets)[key := old(Get(key)).Touched(now, window as real, CHECK_SLACK)]
                && IsTouched(old(Get(key)), zsets[key], now, window as real, 5.0)
                && (r.Allowed? <==> error != NoError || |zsets[key].entries| <= limit)
                && (r.Exceeded? ==> IsRetryAfter(r.retryAfter, zsets[key].entries, now, window as real))
    {
      if !healthy || error == NotSent {
        return Allowed;
      }
      ZRemRangeByScore(key, 0.0, now - window as real, now);
      ZAdd(key, now);
      Expire(key, now + window as real + CHECK_SLACK);
      assert zsets[key].entries == old(Get(key)).Pruned(now, window as real) + {now};
      if error == ReplyLost {
        return Allowed;
      }
      if |zsets[key].entries| > limit {
        if error == RangeFails {
          return Allowed;
        }
        var oldest := Oldest(zsets[key].entries, now);
        RetryAfterIsSeconds(oldest, now, window as real);
        return Exceeded(RetryAfter(oldest, now, window as real));
      }
      return Allowed;
    }
  }
}
