/**
 * `rateLimitOrThrow`: a fixed-window counter per client address, kept in an
 * external counter store with an atomic increment and key expiry. The clock
 * is an explicit parameter in milliseconds.
 */
module RateLimiter {
  import opened Wrappers

  const RateLimitWindowSec: nat := 600
  const RateLimitMax: nat := 20

  /** The counter-store key for a client address. */
  function RateLimitKey(ip: string): string
  {
    "rl:apply:" + ip
  }

  /** A stored counter and the instant, in milliseconds, at which it expires if an expiry is set. */
  datatype Entry = Entry(count: nat, expiresAt: Option<int>)

  /** An entry still exists at `now`: it has no expiry or has not reached it. */
  predicate Live(e: Entry, now: int)
  {
    e.expiresAt.None? || now < e.expiresAt.value
  }

  /** The counter a key holds at `now`: a key never written or already expired reads as 0. */
  function CountAt(entries: map<string, Entry>, key: string, now: int): nat
  {
    if key in entries && Live(entries[key], now) then entries[key].count else 0
  }

  /**
   * INCR: a live counter goes up by one and keeps its expiry; a missing or
   * expired key starts again at 1 with no expiry.
   */
  function Incremented(entries: map<string, Entry>, key: string, now: int): map<string, Entry>
  {
    if key in entries && Live(entries[key], now) then
      entries[key := Entry(entries[key].count + 1, entries[key].expiresAt)]
    else
      entries[key := Entry(1, None)]
  }

  /** EXPIRE: a live key expires `seconds` after `now`; a missing key is left as it is. */
  function WithExpiry(entries: map<string, Entry>, key: string, seconds: nat, now: int): map<string, Entry>
  {
    if key in entries && Live(entries[key], now) then
      entries[key := entries[key].(expiresAt := Some(now + seconds * 1000))]
    else entries
  }

  /**
   * One call of rateLimitOrThrow on the store contents `entries`: the new
   * contents, and whether the request is allowed.
   */
  function Hit(entries: map<string, Entry>, ip: string, now: int): (map<string, Entry>, bool)
  {
    var key := RateLimitKey(ip);
    var after := Incremented(entries, key, now);
    var count := after[key].count;
    (if count == 1 then WithExpiry(after, key, RateLimitWindowSec, now) else after, count <= RateLimitMax)
  }

  /** The counter store: one entry per key, changed in place by its commands. */
  class CounterStore {
    var entries: map<string, Entry>

    constructor ()
      ensures entries == map[]
    {
      entries := map[];
    }

    /** INCR key: the counter's new value. */
    method Incr(key: string, now: int) returns (count: nat)
      modifies this
      ensures entries == Incremented(old(entries), key, now)
      ensures count == CountAt(old(entries), key, now) + 1 && key in entries && entries[key].count == count
    {
      if key in entries && Live(entries[key], now) {
        count := entries[key].count + 1;
        entries := entries[key := Entry(count, entries[key].expiresAt)];
      } else {
        count := 1;
        entries := entries[key := Entry(1, None)];
      }
    }

    /** EXPIRE key seconds: whether the key existed and got the expiry. */
    method Expire(key: string, seconds: nat, now: int) returns (applied: bool)
      modifies this
      ensures entries == WithExpiry(old(entries), key, seconds, now)
      ensures applied <==> key in old(entries) && Live(old(entries)[key], now)
    {
      applied := key in entries && Live(entries[key], now);
      if applied {
        entries := entries[key := entries[key].(expiresAt := Some(now + seconds * 1000))];
      }
    }
  }

  /**
   * rateLimitOrThrow: increments the client's counter, arms the window on
   * the first hit and allows the request while the count is at most 20.
   * A failing store is not caught here.
   */
  method RateLimitOrThrow(store: CounterStore, ip: string, now: int) returns (allowed: bool)
    modifies store
    ensures (store.entries, allowed) == Hit(old(store.entries), ip, now)
  {
    var key := RateLimitKey(ip);
    var count := store.Incr(key, now);
    if count == 1 {
      var _ := store.Expire(key, RateLimitWindowSec, now);
    }
    allowed := count <= RateLimitMax;
  }

  /**
   * One hit adds one to the client's live counter, arms a 600 s expiry
   * exactly when the counter starts, allows the request iff the new count is
   * at most 20, and leaves every other key alone.
   */
  lemma HitCounts(entries: map<string, Entry>, ip: string, now: int)
    ensures var key := RateLimitKey(ip);
      var (after, allowed) := Hit(entries, ip, now);
      && key in after
      && CountAt(after, key, now) == CountAt(entries, key, now) + 1
      && (allowed <==> CountAt(entries, key, now) + 1 <= RateLimitMax)
      && (CountAt(entries, key, now) == 0 ==> after[key].expiresAt == Some(now + RateLimitWindowSec * 1000))
      && (CountAt(entries, key, now) > 0 ==> after[key].expiresAt == entries[key].expiresAt)
      && (forall k :: k != key ==> (k in after <==> k in entries) && (k in after ==> after[k] == entries[k]))
  {
  }

  /** rateLimitOrThrow called once per instant of `times`, in order: final contents and answers. */
  function Hits(entries: map<string, Entry>, ip: string, times: seq<int>): (map<string, Entry>, seq<bool>)
    decreases |times|
  {
    if times == [] then (entries, [])
    else
      var (next, allowed) := Hit(entries, ip, times[0]);
      var (last, answers) := Hits(next, ip, times[1..]);
      (last, [allowed] + answers)
  }

  /** Inside a window already started with `c` hits, each further hit counts up and keeps the expiry. */
  lemma {:induction false} HitsInsideWindow(entries: map<string, Entry>, ip: string, times: seq<int>, c: nat, expiry: int)
    requires var key := RateLimitKey(ip); key in entries && entries[key] == Entry(c, Some(expiry)) && c >= 1
    requires forall i :: 0 <= i < |times| ==> times[i] < expiry
    ensures var (last, answers) := Hits(entries, ip, times);
      && |answers| == |times|
      && (forall i :: 0 <= i < |times| ==> answers[i] == (c + i + 1 <= RateLimitMax))
      && RateLimitKey(ip) in last && last[RateLimitKey(ip)] == Entry(c + |times|, Some(expiry))
  {
    if times != [] {
      var key := RateLimitKey(ip);
      var (next, allowed) := Hit(entries, ip, times[0]);
      assert next[key] == Entry(c + 1, Some(expiry));
      assert allowed == (c + 1 <= RateLimitMax);
      HitsInsideWindow(next, ip, times[1..], c + 1, expiry);
      var (last, answers) := Hits(next, ip, times[1..]);
      assert Hits(entries, ip, times) == (last, [allowed] + answers);
      forall i | 1 <= i < |times| ensures ([allowed] + answers)[i] == (c + i + 1 <= RateLimitMax) {
        assert ([allowed] + answers)[i] == answers[i - 1];
        assert times[1..][i - 1] == times[i];
      }
    }
  }

  /**
   * Fixed window: starting from a client with no live counter, the hits that
   * fall within 600 s of the first one are allowed up to the 20th and refused
   * from the 21st on.
   */
  lemma {:induction false} FixedWindow(entries: map<string, Entry>, ip: string, times: seq<int>)
    requires times != [] && CountAt(entries, RateLimitKey(ip), times[0]) == 0
    requires forall i :: 0 <= i < |times| ==> times[i] < times[0] + RateLimitWindowSec * 1000
    ensures var (_, answers) := Hits(entries, ip, times);
      |answers| == |times| && forall i :: 0 <= i < |times| ==> (answers[i] <==> i < RateLimitMax)
  {
    var key := RateLimitKey(ip);
    var expiry := times[0] + RateLimitWindowSec * 1000;
    var (next, allowed) := Hit(entries, ip, times[0]);
    assert next[key] == Entry(1, Some(expiry));
    HitsInsideWindow(next, ip, times[1..], 1, expiry);
    var (last, answers) := Hits(next, ip, times[1..]);
    assert Hits(entries, ip, times) == (last, [allowed] + answers);
    forall i | 1 <= i < |times| ensures ([allowed] + answers)[i] <==> i < RateLimitMax {
      assert ([allowed] + answers)[i] == answers[i - 1];
    }
  }

  /** Once the window has expired, the next hit starts a new window and is allowed. */
  lemma WindowResets(entries: map<string, Entry>, ip: string, now: int)
    requires var key := RateLimitKey(ip); key in entries && entries[key].expiresAt.Some?
    requires now >= entries[RateLimitKey(ip)].expiresAt.value
    ensures var (after, allowed) := Hit(entries, ip, now);
      allowed && after[RateLimitKey(ip)] == Entry(1, Some(now + RateLimitWindowSec * 1000))
  {
  }
}
