/**
 * The decaying memo of discovery lookups (messageq/subscribers_memo.go).
 *
 * Each channel's last successful subscriber listing is kept with the time it
 * was fetched.  An entry expires lazily: it is only checked, and replaced,
 * when the channel is looked up again.  Time is a nanosecond count passed
 * in as `now`, and durations are nanosecond counts as in Go's time package.
 */
module Memo {
  import opened Outcomes
  import opened RedisDisco

  /** A cached listing `S`, fetched at time `T`. */
  datatype Entry = Entry(S: seq<string>, T: int) {

    /** `T.Add(d).Sub(now) < 0`: the entry has outlived the decay `d`. */
    function Decayed(d: int, now: int): (r: bool)
      ensures r <==> now > T + d
    {
      T + d - now < 0
    }
  }

  /** newDecayingSubscribers: a listing stamped with the current time. */
  function NewEntry(s: seq<string>, now: int): (e: Entry)
    ensures e.S == s && e.T == now
    ensures forall d :: d >= 0 ==> !e.Decayed(d, now)
  {
    Entry(s, now)
  }

  /** An entry is live up to and including the instant `T + d`, and decayed from the next one on. */
  lemma DecayBoundary(e: Entry, d: int, later: int)
    ensures !e.Decayed(d, e.T + d)
    ensures later > e.T + d ==> e.Decayed(d, later)
  {
  }

  /** Once decayed, an entry stays decayed as time goes on. */
  lemma DecayMonotone(e: Entry, d: int, t1: int, t2: int)
    requires t1 <= t2 && e.Decayed(d, t1)
    ensures e.Decayed(d, t2)
  {
  }

  /** A decaying memoization of a discovery service's Subscribers. */
  class SubscribersMemo {
    const S: RedisDiscovery
    var M: map<string, Entry>
    const Decay: int

    /** memoizeSubscriberser: an empty memo over `s`. */
    constructor (s: RedisDiscovery, decay: int)
      ensures Valid()
      ensures S == s && M == map[] && Decay == decay
    {
      S := s;
      M := map[];
      Decay := decay;
    }

    /**
     * Every cached listing came from the discovery service, which lists
     * each subscriber once, so no cached listing holds a repeat.
     */
    ghost predicate Valid()
      reads this
    {
      forall x :: x in M ==> NoDups(M[x].S)
    }

    /** The memo would answer a lookup of `x` at `now` from its map. */
    predicate Hit(x: string, now: int)
      reads this
    {
      x in M && !M[x].Decayed(Decay, now)
    }

    /**
     * One lookup of `x` whose hit test read the clock as `now`, and whose
     * store step, after the discovery call returned, read it as `stamp`,
     * that returned `r`:
     *  - on a hit, the cached listing, no discovery call and nothing changed;
     *  - otherwise exactly one discovery call; its error is returned and not
     *    cached, or its listing is returned and stored as `(r, stamp)`,
     *    overwriting only the entry for `x`.
     */
    twostate predicate Answered(x: string, now: int, stamp: int, new r: Result<seq<string>>)
      reads this, S
    {
      if old(Hit(x, now)) then
        && r == Ok(old(M[x]).S)
        && M == old(M)
        && S.calls == old(S.calls) && S.store == old(S.store) && S.unreachable == old(S.unreachable)
      else
        && S.Listed(x, r)
        && (r.Err? ==> M == old(M))
        && (r.Ok? ==> M == old(M)[x := NewEntry(r.value, stamp)])
    }

    /**
     * Subscribers: a lookup through the memo.  Go reads the clock twice:
     * `now` in the hit test and `stamp` when the fetched listing is stored.
     */
    method Subscribers(x: string, now: int, stamp: int) returns (r: Result<seq<string>>)
      requires Valid()
      modifies this, S
      ensures Valid()
      ensures Answered(x, now, stamp, r)
      ensures r.Ok? ==> NoDups(r.value)
    {
      if x in M && !M[x].Decayed(Decay, now) {
        return Ok(M[x].S);
      }
      r := S.Subscribers(x);
      if r.Err? {
        return Err(r.error);
      }
      M := M[x := NewEntry(r.value, stamp)];
    }
  }

  /**
   * Two lookups of one channel no further apart than the decay, on a clock
   * that does not run backwards (the first lookup stores its listing at
   * `s1 >= t1`).  When the first had to ask the discovery service and
   * succeeded, the second is answered from the memo with the same listing:
   * one discovery call in all.  When even the second instant is covered by
   * the cached entry, neither lookup reaches the discovery service.
   */
  method LookupTwice(m: SubscribersMemo, x: string, t1: int, s1: int, t2: int, s2: int)
      returns (r1: Result<seq<string>>, r2: Result<seq<string>>)
    requires m.Valid() && t1 <= s1 && 0 <= t2 - t1 <= m.Decay
    modifies m, m.S
    ensures m.Valid()
    ensures old(!m.Hit(x, t1)) && r1.Ok? ==> r2 == r1 && m.S.calls == old(m.S.calls) + [SubscribersCall(x)]
    ensures old(m.Hit(x, t2)) ==> r1 == r2 == Ok(old(m.M[x]).S) && m.S.calls == old(m.S.calls)
  {
    r1 := m.Subscribers(x, t1, s1);
    r2 := m.Subscribers(x, t2, s2);
  }
}
