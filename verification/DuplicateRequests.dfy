/** The counter of repeated requests: a sliding window over timestamps that are purged lazily. */
module DuplicateRequests {
  import opened Outcomes

  const WINDOW_MS := 1000
  const THRESHOLD := 3
  const HEALTH := "/health"

  datatype Hit = Hit(key: string, time: nat)

  // ---------------------------------------------------------------- what is counted

  function BeforeQuery(url: string): string {
    if url == "" || url[0] == '?' then "" else [url[0]] + BeforeQuery(url[1..])
  }

  predicate Mentions(path: string, part: string) {
    part <= path || (path != "" && Mentions(path[1..], part))
  }

  predicate IsProbe(url: string) {
    Mentions(BeforeQuery(url), HEALTH)
  }

  function KeyOf(tracker: string, verb: string, url: string): string {
    tracker + "|" + verb + "|" + BeforeQuery(url)
  }

  predicate Free(s: string, c: char) {
    forall i :: 0 <= i < |s| ==> s[i] != c
  }

  /** The path of a request: its address up to the query, which starts at the first question mark. */
  lemma {:induction false} PathEndsAtTheQuery(url: string)
    ensures BeforeQuery(url) <= url && Free(BeforeQuery(url), '?')
    ensures BeforeQuery(url) == url || url[|BeforeQuery(url)|] == '?'
  {
    if url != "" && url[0] != '?' {
      PathEndsAtTheQuery(url[1..]);
    }
  }

  predicate StandsAt(path: string, part: string, i: nat) {
    i <= |path| && part <= path[i..]
  }

  ghost predicate Stands(path: string, part: string) {
    exists i: nat :: StandsAt(path, part, i)
  }

  lemma {:induction false} MentionsSomewhere(path: string, part: string)
    ensures Mentions(path, part) <==> Stands(path, part)
  {
    assert path[0..] == path;
    if part <= path {
      assert StandsAt(path, part, 0);
    } else if path != "" {
      MentionsSomewhere(path[1..], part);
      if i: nat :| StandsAt(path[1..], part, i) {
        assert path[1..][i..] == path[i + 1..];
        assert StandsAt(path, part, i + 1);
      }
      if i: nat :| StandsAt(path, part, i) {
        assert i > 0 && path[1..][i - 1..] == path[i..];
        assert StandsAt(path[1..], part, i - 1);
      }
    }
  }

  /** A request is a probe exactly if '/health' stands somewhere in its path; a query does not make it one. */
  lemma ProbesAreHealthPaths(url: string)
    ensures IsProbe(url) <==> Stands(BeforeQuery(url), HEALTH)
    ensures HEALTH == "/health"
  {
    MentionsSomewhere(BeforeQuery(url), HEALTH);
  }

  lemma FirstBar(a: string, b: string, s: string, t: string)
    requires Free(a, '|') && Free(b, '|') && a + "|" + s == b + "|" + t
    ensures a == b && s == t
  {
    var x, y := a + "|" + s, b + "|" + t;
    assert x[|a|] == '|' && y[|b|] == '|';
    assert a == x[..|a|] && b == y[..|b|];
    assert s == x[|a| + 1..] && t == y[|b| + 1..];
  }

  /** Two requests count together exactly if session, verb and path are the same; sessions and verbs have no bars. */
  lemma KeysTellRequestsApart(tracker: string, verb: string, url: string, tracker': string, verb': string, url': string)
    requires Free(tracker, '|') && Free(verb, '|') && Free(tracker', '|') && Free(verb', '|')
    ensures KeyOf(tracker, verb, url) == KeyOf(tracker', verb', url') <==>
            tracker == tracker' && verb == verb' && BeforeQuery(url) == BeforeQuery(url')
  {
    var p, q := verb + "|" + BeforeQuery(url), verb' + "|" + BeforeQuery(url');
    assert KeyOf(tracker, verb, url) == tracker + "|" + p && KeyOf(tracker', verb', url') == tracker' + "|" + q;
    if KeyOf(tracker, verb, url) == KeyOf(tracker', verb', url') {
      FirstBar(tracker, tracker', p, q);
      FirstBar(verb, verb', BeforeQuery(url), BeforeQuery(url'));
    }
  }

  predicate InWindow(t: nat, now: nat) {
    now - t < WINDOW_MS
  }

  /** The requests of a key in the window that ends now, over the whole history. */
  function CountInWindow(history: seq<Hit>, key: string, now: nat): nat {
    if history == [] then 0
    else
      var last := history[|history| - 1];
      CountInWindow(history[..|history| - 1], key, now) + if last.key == key && InWindow(last.time, now) then 1 else 0
  }

  // ---------------------------------------------------------------- timestamps

  function Alive(times: seq<nat>, now: nat): (r: seq<nat>)
    ensures forall i :: 0 <= i < |r| ==> InWindow(r[i], now)
  {
    if times == [] then []
    else
      var last := times[|times| - 1];
      var rest := Alive(times[..|times| - 1], now);
      if InWindow(last, now) then rest + [last] else rest
  }

  function Times(history: seq<Hit>, key: string): seq<nat> {
    if history == [] then []
    else
      var last := history[|history| - 1];
      var rest := Times(history[..|history| - 1], key);
      if last.key == key then rest + [last.time] else rest
  }

  lemma AliveAppend(times: seq<nat>, t: nat, now: nat)
    ensures Alive(times + [t], now) == if InWindow(t, now) then Alive(times, now) + [t] else Alive(times, now)
  {
    assert (times + [t])[..|times|] == times;
  }

  lemma TimesAppend(history: seq<Hit>, h: Hit, key: string)
    ensures Times(history + [h], key) == if h.key == key then Times(history, key) + [h.time] else Times(history, key)
  {
    assert (history + [h])[..|history|] == history;
  }

  /** What was purged at one moment would be gone at any later one. */
  lemma {:induction false} PurgeEarlier(times: seq<nat>, earlier: nat, now: nat)
    requires earlier <= now
    ensures Alive(Alive(times, earlier), now) == Alive(times, now)
  {
    if times != [] {
      var last := times[|times| - 1];
      var rest := times[..|times| - 1];
      PurgeEarlier(rest, earlier, now);
      if InWindow(last, earlier) {
        AliveAppend(Alive(rest, earlier), last, now);
      }
    }
  }

  /** Counting the timestamps of a key that are alive is counting its requests in the window. */
  lemma {:induction false} AliveIsCounted(history: seq<Hit>, key: string, now: nat)
    ensures |Alive(Times(history, key), now)| == CountInWindow(history, key, now)
  {
    if history != [] {
      var last := history[|history| - 1];
      var rest := history[..|history| - 1];
      AliveIsCounted(rest, key, now);
      AliveAppend(Times(rest, key), last.time, now);
    }
  }

  // ---------------------------------------------------------------- the middleware

  function Stored(hits: map<string, seq<nat>>, key: string): seq<nat> {
    if key in hits then hits[key] else []
  }

  /** What is stored for a key agrees with its history on everything that can still count. */
  predicate Agrees(hits: map<string, seq<nat>>, history: seq<Hit>, key: string, now: nat) {
    Alive(Stored(hits, key), now) == Alive(Times(history, key), now)
  }

  lemma AgreesLater(hits: map<string, seq<nat>>, history: seq<Hit>, key: string, earlier: nat, now: nat)
    requires Agrees(hits, history, key, earlier) && earlier <= now
    ensures Agrees(hits, history, key, now)
  {
    PurgeEarlier(Stored(hits, key), earlier, now);
    PurgeEarlier(Times(history, key), earlier, now);
  }

  /** Timestamps that are not in the future, and were alive at the last sweep or came after it. */
  predicate Purged(times: seq<nat>, lastSweep: nat, latest: nat) {
    forall i :: 0 <= i < |times| ==> times[i] <= latest && InWindow(times[i], lastSweep)
  }

  lemma {:induction false} AliveIsPurged(times: seq<nat>, lastSweep: nat, now: nat)
    requires lastSweep <= now && Purged(times, lastSweep, now)
    ensures Purged(Alive(times, now), now, now) && Purged(Alive(times, now), lastSweep, now)
  {
    if times != [] {
      AliveIsPurged(times[..|times| - 1], lastSweep, now);
    }
  }

  predicate HitsOk(hits: map<string, seq<nat>>, lastSweep: nat, latest: nat) {
    forall key {:trigger hits[key]} :: key in hits ==> hits[key] != [] && Purged(hits[key], lastSweep, latest)
  }

  function PurgeKey(hits: map<string, seq<nat>>, key: string, now: nat): map<string, seq<nat>> {
    var alive := Alive(Stored(hits, key), now);
    if alive == [] then hits - {key} else hits[key := alive]
  }

  lemma PurgeKeeps(hits: map<string, seq<nat>>, history: seq<Hit>, key: string, since: nat, now: nat)
    requires since <= now && HitsOk(hits, since, now) && forall k :: Agrees(hits, history, k, now)
    ensures var r := PurgeKey(hits, key, now);
            && HitsOk(r, since, now) && (key in r ==> Purged(r[key], now, now))
            && (forall k :: Agrees(r, history, k, now))
  {
    var r := PurgeKey(hits, key, now);
    AliveIsPurged(Stored(hits, key), since, now);
    PurgeEarlier(Stored(hits, key), now, now);
    forall k ensures Agrees(r, history, k, now) {
      assert Agrees(hits, history, k, now);
    }
  }

  class Middleware {
    var hits: map<string, seq<nat>>
    var lastSweep: nat
    ghost var history: seq<Hit>
    ghost var latest: nat

    ghost predicate Valid()
      reads this
    {
      && lastSweep <= latest && latest - lastSweep < WINDOW_MS
      && HitsOk(hits, lastSweep, latest)
      && (forall key :: Agrees(hits, history, key, latest))
    }

    constructor ()
      ensures Valid() && history == [] && latest == 0
    {
      hits, lastSweep, history, latest := map[], 0, [], 0;
    }

    /**
     * Counts the request, and warns when the count gets to one more than the threshold. The count is the number of
     * requests of that key in the last window over the whole history, whatever has been purged.
     */
    method Use(tracker: string, verb: string, url: string, now: nat) returns (warned: Option<nat>)
      requires Valid() && latest <= now
      modifies this
      ensures Valid()
      ensures IsProbe(url) ==> warned.None? && history == old(history) && hits == old(hits)
      ensures !IsProbe(url) ==> latest == now && history == old(history) + [Hit(KeyOf(tracker, verb, url), now)]
      ensures !IsProbe(url) ==>
        var count := CountInWindow(history, KeyOf(tracker, verb, url), now);
        warned == if count == THRESHOLD + 1 then Some(count) else None
    {
      warned := None;
      if IsProbe(url) {
        return;
      }
      var key := KeyOf(tracker, verb, url);
      forall k ensures Agrees(hits, history, k, now) {
        AgreesLater(hits, history, k, latest, now);
      }
      var recent := Alive(Stored(hits, key), now) + [now];
      ghost var stored, before := hits, history;
      hits := hits[key := recent];
      history := history + [Hit(key, now)];
      latest := now;
      forall k ensures Agrees(hits, history, k, now) {
        RecordedAgrees(stored, before, key, now, k);
      }
      AliveIsPurged(Stored(stored, key), lastSweep, now);
      RecordedCount(stored, before, key, now);
      if |recent| == THRESHOLD + 1 {
        warned := Some(|recent|);
      }
      Sweep(now);
    }

    /** At most once per window: drops the timestamps that no longer count, and the keys left without any. */
    method Sweep(now: nat)
      requires latest == now && lastSweep <= now
      requires HitsOk(hits, lastSweep, now) && forall key :: Agrees(hits, history, key, now)
      modifies this`hits, this`lastSweep
      ensures Valid()
    {
      if now - lastSweep < WINDOW_MS {
        return;
      }
      ghost var since := lastSweep;
      lastSweep := now;
      var pending := hits.Keys;
      while pending != {}
        invariant lastSweep == now && HitsOk(hits, since, now)
        invariant forall key {:trigger hits[key]} :: key in hits && key !in pending ==> Purged(hits[key], now, now)
        invariant forall key :: Agrees(hits, history, key, now)
        decreases |pending|
      {
        var key :| key in pending;
        pending := pending - {key};
        var alive := Alive(Stored(hits, key), now);
        PurgeKeeps(hits, history, key, since, now);
        if alive == [] {
          hits := hits - {key};
        } else {
          hits := hits[key := alive];
        }
      }
    }

    /** Nothing as old as two windows is ever stored. */
    lemma StoredIsRecent(key: string, i: nat)
      requires Valid() && key in hits && i < |hits[key]|
      ensures latest - hits[key][i] < 2 * WINDOW_MS
    {
    }
  }

  lemma RecordedAgrees(hits: map<string, seq<nat>>, history: seq<Hit>, key: string, now: nat, k: string)
    requires Agrees(hits, history, key, now) && Agrees(hits, history, k, now)
    ensures Agrees(hits[key := Alive(Stored(hits, key), now) + [now]], history + [Hit(key, now)], k, now)
  {
    TimesAppend(history, Hit(key, now), k);
    if k == key {
      AliveAppend(Alive(Stored(hits, key), now), now, now);
      AliveAppend(Times(history, key), now, now);
      PurgeEarlier(Stored(hits, key), now, now);
    }
  }

  lemma RecordedCount(hits: map<string, seq<nat>>, history: seq<Hit>, key: string, now: nat)
    requires Agrees(hits, history, key, now)
    ensures |Alive(Stored(hits, key), now) + [now]| == CountInWindow(history + [Hit(key, now)], key, now)
  {
    TimesAppend(history, Hit(key, now), key);
    AliveAppend(Times(history, key), now, now);
    AliveIsCounted(history + [Hit(key, now)], key, now);
  }

  // ---------------------------------------------------------------- how often it warns

  /** Whether a request that arrives now, after such a history, raises the warning. */
  predicate Warns(history: seq<Hit>, key: string, now: nat) {
    CountInWindow(history + [Hit(key, now)], key, now) == THRESHOLD + 1
  }

  lemma CountAppend(history: seq<Hit>, h: Hit, key: string, now: nat)
    ensures CountInWindow(history + [h], key, now) ==
      CountInWindow(history, key, now) + if h.key == key && InWindow(h.time, now) then 1 else 0
  {
    assert (history + [h])[..|history|] == history;
  }

  /** The requests of a key. */
  function Requests(history: seq<Hit>, key: string): nat {
    if history == [] then 0
    else Requests(history[..|history| - 1], key) + if history[|history| - 1].key == key then 1 else 0
  }

  /** The requests of a key that are in the window at one moment and have left it at a later one. */
  function Left(history: seq<Hit>, key: string, now: nat, later: nat): nat {
    if history == [] then 0
    else
      var last := history[|history| - 1];
      Left(history[..|history| - 1], key, now, later)
      + if last.key == key && InWindow(last.time, now) && !InWindow(last.time, later) then 1 else 0
  }

  /** What is in the window later on is what was in it, less what has left. */
  lemma {:induction false} WindowLoses(history: seq<Hit>, key: string, now: nat, later: nat)
    requires now <= later
    ensures CountInWindow(history, key, later) + Left(history, key, now, later) == CountInWindow(history, key, now)
  {
    if history != [] {
      WindowLoses(history[..|history| - 1], key, now, later);
    }
  }

  /** Requests that arrive within the window all count at its end. */
  lemma {:induction false} WindowGains(history: seq<Hit>, more: seq<Hit>, key: string, now: nat, later: nat)
    requires later < now + WINDOW_MS && forall k :: 0 <= k < |more| ==> more[k].time >= now
    ensures CountInWindow(history + more, key, later) == CountInWindow(history, key, later) + Requests(more, key)
  {
    if more == [] {
      assert history + more == history;
    } else {
      var last := |more| - 1;
      assert history + more == (history + more[..last]) + [more[last]];
      WindowGains(history, more[..last], key, now, later);
      CountAppend(history + more[..last], more[last], key, later);
    }
  }

  /**
   * Inside the window of a warning, any later request of the key warns again exactly when the requests counted then
   * that have left the window are one more than those that arrived in between.
   */
  lemma WarnsAgainExactly(history: seq<Hit>, key: string, now: nat, more: seq<Hit>, later: nat)
    requires Warns(history, key, now) && now <= later < now + WINDOW_MS
    requires forall k :: 0 <= k < |more| ==> more[k].time >= now
    ensures var seen := history + [Hit(key, now)];
            Warns(seen + more, key, later) <==> Left(seen, key, now, later) == Requests(more, key) + 1
  {
    var seen := history + [Hit(key, now)];
    WindowLoses(seen, key, now, later);
    WindowGains(seen, more, key, now, later);
    CountAppend(seen + more, Hit(key, later), key, later);
  }

  /** The first requests of a steady stream: one every d milliseconds. */
  function Steady(key: string, d: nat, n: nat): seq<Hit> {
    if n == 0 then [] else Steady(key, d, n - 1) + [Hit(key, (n - 1) * d)]
  }

  lemma {:induction false} SteadyGone(key: string, d: nat, n: nat, m: nat)
    requires m <= n && (n - m + 1) * d >= WINDOW_MS
    ensures CountInWindow(Steady(key, d, m), key, n * d) == 0
  {
    if m > 0 {
      assert (n - m + 2) * d == (n - m + 1) * d + d;
      SteadyGone(key, d, n, m - 1);
      Age(n, m - 1, d);
      CountAppend(Steady(key, d, m - 1), Hit(key, (m - 1) * d), key, n * d);
    }
  }

  lemma Age(n: nat, m: nat, d: nat)
    requires m <= n
    ensures n * d - m * d == (n - m) * d
  {
  }

  /** The last five requests of a steady stream, one by one. */
  lemma LastFive(key: string, d: nat, n: nat)
    requires n >= 4
    ensures CountInWindow(Steady(key, d, n + 1), key, n * d) == CountInWindow(Steady(key, d, n - 4), key, n * d)
      + (if 4 * d < WINDOW_MS then 1 else 0)
      + (if 3 * d < WINDOW_MS then 1 else 0)
      + (if 2 * d < WINDOW_MS then 1 else 0)
      + (if d < WINDOW_MS then 1 else 0) + 1
  {
    Age(n, n - 4, d);
    Age(n, n - 3, d);
    Age(n, n - 2, d);
    Age(n, n - 1, d);
    CountAppend(Steady(key, d, n - 4), Hit(key, (n - 4) * d), key, n * d);
    CountAppend(Steady(key, d, n - 3), Hit(key, (n - 3) * d), key, n * d);
    CountAppend(Steady(key, d, n - 2), Hit(key, (n - 2) * d), key, n * d);
    CountAppend(Steady(key, d, n - 1), Hit(key, (n - 1) * d), key, n * d);
    CountAppend(Steady(key, d, n), Hit(key, n * d), key, n * d);
  }

  lemma {:induction false} CountIsBounded(history: seq<Hit>, key: string, now: nat)
    ensures CountInWindow(history, key, now) <= |history|
  {
    if history != [] {
      CountIsBounded(history[..|history| - 1], key, now);
    }
  }

  lemma {:induction false} SteadyLength(key: string, d: nat, n: nat)
    ensures |Steady(key, d, n)| == n
  {
    if n > 0 {
      SteadyLength(key, d, n - 1);
    }
  }

  /** The fourth request of a steady stream warns exactly when the first one is still in the window. */
  lemma FourthOfSteady(key: string, d: nat)
    ensures Warns(Steady(key, d, 3), key, 3 * d) <==> 3 * d < WINDOW_MS
  {
    CountAppend(Steady(key, d, 0), Hit(key, 0 * d), key, 3 * d);
    CountAppend(Steady(key, d, 1), Hit(key, 1 * d), key, 3 * d);
    CountAppend(Steady(key, d, 2), Hit(key, 2 * d), key, 3 * d);
    CountAppend(Steady(key, d, 3), Hit(key, 3 * d), key, 3 * d);
  }

  lemma BeforeTheFourth(key: string, d: nat, n: nat)
    requires n < 3
    ensures !Warns(Steady(key, d, n), key, n * d)
  {
    SteadyLength(key, d, n);
    CountIsBounded(Steady(key, d, n) + [Hit(key, n * d)], key, n * d);
  }

  lemma AfterTheFourth(key: string, d: nat, n: nat)
    requires n > 3
    ensures Warns(Steady(key, d, n), key, n * d) <==> 250 <= d <= 333
  {
    assert Steady(key, d, n) + [Hit(key, n * d)] == Steady(key, d, n + 1);
    LastFive(key, d, n);
    if d >= 250 {
      SteadyGone(key, d, n, n - 4);
    }
  }

  /** The warnings of a steady stream: none before the fourth request; on every later one, exactly at 250 to 333 ms. */
  lemma SteadyRequestsWarn(key: string, d: nat, n: nat)
    ensures Warns(Steady(key, d, n), key, n * d) <==> (n == 3 && d <= 333) || (n > 3 && 250 <= d <= 333)
  {
    if n < 3 {
      BeforeTheFourth(key, d, n);
    } else if n == 3 {
      FourthOfSteady(key, d);
    } else {
      AfterTheFourth(key, d, n);
    }
  }
}
