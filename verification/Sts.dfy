/** The credential refresh of pkg/sts/sts.go: a token that is looked at periodically and fetched again
    once it comes within a window of its expiry.  Times are in any one unit. */
module Sts {

  const TOKEN_REFRESH_PERIOD: nat := 5    // minutes
  const TOKEN_EXPIRED_WINDOW: nat := 30   // minutes

  /** The reply of the credential server. */
  datatype Credential = Credential(expiredTime: int, accessKeyId: string, accessKeySecret: string, securityToken: string)

  datatype Fetch = Failed | Fetched(role: Credential)

  function ExpiredAt(auth: Credential, window: nat): int {
    auth.expiredTime - window
  }

  predicate IsTokenExpired(auth: Credential, now: int, window: nat) {
    now > ExpiredAt(auth, window)
  }

  // ----- Runs of the refresh loop -----

  /** One look at the token: when, and what the server would answer. */
  datatype Tick = Tick(now: int, fetch: Fetch)

  function Refreshed(auth: Credential, t: Tick, window: nat): Credential {
    if IsTokenExpired(auth, t.now, window) && t.fetch.Fetched? then t.fetch.role else auth
  }

  /** The credential held after the ticks. */
  function Held(auth: Credential, ticks: seq<Tick>, window: nat): Credential {
    if ticks == [] then auth
    else Refreshed(Held(auth, ticks[..|ticks| - 1], window), ticks[|ticks| - 1], window)
  }

  /** What the server is asked for during the ticks: one fetch at each look within the window. */
  function Asked(auth: Credential, ticks: seq<Tick>, window: nat): seq<Fetch> {
    if ticks == [] then [] else
      var front, last := ticks[..|ticks| - 1], ticks[|ticks| - 1];
      Asked(auth, front, window)
      + if IsTokenExpired(Held(auth, front, window), last.now, window) then [last.fetch] else []
  }

  /** How many fetches in a row have failed. */
  function Failures(auth: Credential, ticks: seq<Tick>, window: nat): nat {
    if ticks == [] then 0 else
      var front, last := ticks[..|ticks| - 1], ticks[|ticks| - 1];
      if IsTokenExpired(Held(auth, front, window), last.now, window) && last.fetch.Failed?
      then Failures(auth, front, window) + 1 else 0
  }

  function LastLook(start: int, ticks: seq<Tick>): int {
    if ticks == [] then start else ticks[|ticks| - 1].now
  }

  /** At most `period` between looks. */
  predicate Paced(start: int, ticks: seq<Tick>, period: nat) {
    ticks == [] ||
    (var front, last := ticks[..|ticks| - 1], ticks[|ticks| - 1];
     Paced(start, front, period) && LastLook(start, front) <= last.now <= LastLook(start, front) + period)
  }

  /** What the server does: every fetched credential is good for at least `window`, and at most `f` fetches
      in a row fail. */
  predicate Served(auth: Credential, ticks: seq<Tick>, window: nat, f: nat) {
    ticks == [] ||
    (var front, last := ticks[..|ticks| - 1], ticks[|ticks| - 1];
     && Served(auth, front, window, f)
     && (IsTokenExpired(Held(auth, front, window), last.now, window) && last.fetch.Fetched? ==>
           last.now + window <= last.fetch.role.expiredTime)
     && Failures(auth, ticks, window) <= f)
  }

  /** A run that starts with a credential good for the window. */
  predicate Possible(start: int, auth: Credential, ticks: seq<Tick>, period: nat, window: nat, f: nat) {
    start + window <= auth.expiredTime && Paced(start, ticks, period) && Served(auth, ticks, window, f)
  }

  /** After `n` failures in a row at least `window` less `n` periods remain. */
  lemma {:induction false} Remaining(start: int, auth: Credential, ticks: seq<Tick>, period: nat, window: nat, f: nat)
    requires Possible(start, auth, ticks, period, window, f)
    ensures Failures(auth, ticks, window) <= f
    ensures Held(auth, ticks, window).expiredTime - LastLook(start, ticks) >= window - Failures(auth, ticks, window) * period
  {
    if ticks != [] {
      var front := ticks[..|ticks| - 1];
      Remaining(start, auth, front, period, window, f);
      var n := Failures(auth, front, window);
      assert (n + 1) * period == n * period + period;
    }
  }

  predicate GoodAt(auth: Credential, t: int) {
    t <= auth.expiredTime
  }

  /** Until the next look is due, the clock does not pass the expiry of the credential held. */
  ghost predicate InTime(start: int, auth: Credential, ticks: seq<Tick>, period: nat, window: nat) {
    forall t | LastLook(start, ticks) <= t <= LastLook(start, ticks) + period :: GoodAt(Held(auth, ticks, window), t)
  }

  lemma NeverExpires(start: int, auth: Credential, ticks: seq<Tick>, period: nat, window: nat, f: nat)
    requires Possible(start, auth, ticks, period, window, f) && (f + 1) * period <= window
    ensures InTime(start, auth, ticks, period, window)
  {
    Remaining(start, auth, ticks, period, window, f);
    var n := Failures(auth, ticks, window);
    assert (f - n) * period >= 0;
    assert (f + 1) * period == (f - n) * period + n * period + period;
  }

  /** Looks one period apart that all fail. */
  function AllFailing(n: nat, period: nat): seq<Tick> {
    if n == 0 then [] else AllFailing(n - 1, period) + [Tick(n * period, Failed)]
  }

  lemma {:induction false} FailingRun(n: nat, period: nat, window: nat, f: nat, auth: Credential)
    requires n <= f && period > 0 && auth.expiredTime == window
    ensures var ticks := AllFailing(n, period);
      && Possible(0, auth, ticks, period, window, f)
      && Held(auth, ticks, window) == auth && Failures(auth, ticks, window) == n && LastLook(0, ticks) == n * period
  {
    if n > 0 {
      FailingRun(n - 1, period, window, f, auth);
      var ticks := AllFailing(n, period);
      assert ticks[..|ticks| - 1] == AllFailing(n - 1, period);
      assert n * period == (n - 1) * period + period && n * period > 0;
    }
  }

  /** The clock never passes the expiry of the credential held, in any possible run, if and only if the
      window covers one period more than the failures allowed in a row. */
  lemma RefreshInTime(period: nat, window: nat, f: nat)
    requires period > 0
    ensures (f + 1) * period <= window <==>
            (forall start, auth, ticks | Possible(start, auth, ticks, period, window, f) ::
               InTime(start, auth, ticks, period, window))
  {
    if (f + 1) * period <= window {
      forall start, auth, ticks | Possible(start, auth, ticks, period, window, f)
        ensures InTime(start, auth, ticks, period, window)
      {
        NeverExpires(start, auth, ticks, period, window, f);
      }
    } else {
      var auth := Credential(window, "", "", "");
      FailingRun(f, period, window, f, auth);
      var ticks := AllFailing(f, period);
      assert (f + 1) * period == f * period + period;
      assert !InTime(0, auth, ticks, period, window) by {
        var t := LastLook(0, ticks) + period;
        assert !GoodAt(Held(auth, ticks, window), t);
      }
    }
  }

  /** With calls that take no time, the constants tolerate exactly five failures in a row. */
  lemma FiveFailures(f: nat)
    ensures f <= 5 <==>
            (forall start, auth, ticks | Possible(start, auth, ticks, 5, 30, f) :: InTime(start, auth, ticks, 5, 30))
  {
    RefreshInTime(TOKEN_REFRESH_PERIOD, TOKEN_EXPIRED_WINDOW, f);
  }

  // ----- The loop itself -----

  /** One period more than the failures allowed in a row fits in the window. */
  predicate Covers(window: nat, period: nat, f: nat) {
    (f + 1) * period <= window
  }

  /** The first look at the start, and the others at these distances. */
  ghost predicate Spaced(start: int, ticks: seq<Tick>, least: nat, most: nat) {
    && (ticks != [] ==> ticks[0].now == start)
    && forall i, j | 0 <= i < j < |ticks| && j == i + 1 :: least <= ticks[j].now - ticks[i].now <= most
  }

  lemma SpacedOneMore(start: int, ticks: seq<Tick>, t: Tick, least: nat, most: nat)
    requires Spaced(start, ticks, least, most)
    requires if ticks == [] then t.now == start else least <= t.now - ticks[|ticks| - 1].now <= most
    ensures Spaced(start, ticks + [t], least, most)
  {
  }

  lemma NoLooks(start: int, auth: Credential, period: nat, window: nat)
    ensures Held(auth, [], window) == auth && Asked(auth, [], window) == [] && Paced(start, [], period)
    ensures LastLook(start, []) == start && forall least: nat, most: nat :: Spaced(start, [], least, most)
  {
  }

  lemma OneMoreLook(start: int, auth: Credential, ticks: seq<Tick>, t: Tick, period: nat, window: nat)
    ensures Held(auth, ticks + [t], window) == Refreshed(Held(auth, ticks, window), t, window)
    ensures Asked(auth, ticks + [t], window)
         == Asked(auth, ticks, window) + if IsTokenExpired(Held(auth, ticks, window), t.now, window) then [t.fetch] else []
    ensures Paced(start, ticks, period) && LastLook(start, ticks) <= t.now <= LastLook(start, ticks) + period ==>
              Paced(start, ticks + [t], period)
    ensures LastLook(start, ticks + [t]) == t.now
  {
    assert (ticks + [t])[..|ticks|] == ticks;
  }

  class Token {
    var auth: Credential
    var client: Credential    // what the service clients were last built with
    const window: nat
    var asked: seq<Fetch>     // what the credential server has answered so far

    constructor (role: Credential, window: nat)
      ensures auth == role && client == role && this.window == window && asked == []
    {
      auth, client, this.window, asked := role, role, window, [];
    }

    /** One request to the credential server. */
    method GetRoleToken() returns (fetch: Fetch)
      modifies this`asked
      ensures asked == old(asked) + [fetch]
    {
      fetch := *;
      asked := asked + [fetch];
    }

    /** Takes the lock, so it is one step.  One request is made if and only if the credential held is
        within the window of its expiry; a failed one changes nothing, and the clients always use the
        credential held. */
    method RefreshToken(now: int) returns (ghost fetch: Fetch)
      requires client == auth
      modifies this
      ensures asked == old(asked) + if old(auth).expiredTime - now < window then [fetch] else []
      ensures old(auth).expiredTime - now < window && fetch.Fetched? ==> client == auth == fetch.role
      ensures old(auth).expiredTime - now >= window || fetch.Failed? ==> client == auth == old(auth)
    {
      fetch := Failed;
      if IsTokenExpired(auth, now, window) {
        var reply := GetRoleToken();
        fetch := reply;
        if reply.Failed? {
          return;
        }
        auth := reply.role;
        client := reply.role;
      }
    }

    /** wait.Until: a look at once, and the next `refresh` after each one is done, which takes at most
        `latency`.  As long as the server gives credentials that are good for the window and no more than `f`
        fetches fail in a row, each look finds a credential that is still valid, and so does every moment until
        the next.  The server is asked only at the looks within the window. */
    method Run(start: int, refresh: nat, latency: nat, looks: nat, ghost f: nat) returns (ghost ticks: seq<Tick>)
      requires client == auth && start + window <= auth.expiredTime && Covers(window, refresh + latency, f)
      modifies this
      ensures client == auth == Held(old(auth), ticks, window)
      ensures asked == old(asked) + Asked(old(auth), ticks, window)
      ensures |ticks| == looks && Spaced(start, ticks, refresh, refresh + latency)
      ensures Served(old(auth), ticks, window, f) ==>
                forall n | 0 <= n <= looks :: InTime(start, old(auth), ticks[..n], refresh + latency, window)
    {
      hide Held, Asked, Paced, Served, LastLook, InTime, Covers, Spaced;
      ticks := [];
      NoLooks(start, auth, refresh + latency, window);
      var i, now := 0, start;
      while i < looks
        invariant 0 <= i <= looks && |ticks| == i
        invariant client == auth == Held(old(auth), ticks, window)
        invariant asked == old(asked) + Asked(old(auth), ticks, window)
        invariant Paced(start, ticks, refresh + latency) && LastLook(start, ticks) == now
        invariant Spaced(start, ticks, refresh, refresh + latency) && now == if i == 0 then start else ticks[i - 1].now
      {
        if i > 0 {
          var took: int := *;
          now := now + refresh + if 0 <= took <= latency then took else 0;
        }
        ghost var fetch := RefreshToken(now);
        OneMoreLook(start, old(auth), ticks, Tick(now, fetch), refresh + latency, window);
        SpacedOneMore(start, ticks, Tick(now, fetch), refresh, refresh + latency);
        ticks := ticks + [Tick(now, fetch)];
        i := i + 1;
      }
      if Served(old(auth), ticks, window, f) {
        PrefixesInTime(start, old(auth), ticks, refresh + latency, window, f);
      }
    }
  }

  lemma {:induction false} PrefixesInTime(start: int, auth: Credential, ticks: seq<Tick>, period: nat, window: nat, f: nat)
    requires Possible(start, auth, ticks, period, window, f) && Covers(window, period, f)
    ensures forall n | 0 <= n <= |ticks| :: InTime(start, auth, ticks[..n], period, window)
  {
    NeverExpires(start, auth, ticks, period, window, f);
    assert ticks[..|ticks|] == ticks;
    if ticks != [] {
      var front := ticks[..|ticks| - 1];
      PrefixesInTime(start, auth, front, period, window, f);
      forall n | 0 <= n < |ticks| ensures InTime(start, auth, ticks[..n], period, window) {
        assert ticks[..n] == front[..n];
      }
    }
  }
}
