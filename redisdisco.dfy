/**
 * The Redis-backed discovery adapter (discovery/redis/redisdisco.go).
 *
 * Each channel's subscribers are one Redis set, stored under the key
 * `prefix + delim + channel`; Register, Unregister and Subscribers are
 * SADD, SREM and SMEMBERS on that key, and Close does nothing.  The Redis
 * server itself is modelled by the `store` field (key to set) and by an
 * `unreachable` flag under which every command fails.
 */
module RedisDisco {
  import opened Outcomes

  /** The error a Redis command returns while the server cannot be reached. */
  const Unreachable: Error := Error("redis: connection unavailable")

  /** One element of a Redis multi-bulk reply, as redigo hands it over. */
  datatype Reply = Bulk(bytes: string) | Integer(n: int) | SimpleString(text: string) | NilReply

  /** The calls a discovery service receives, in the order it receives them. */
  datatype Call =
    | RegisterCall(channel: string, endpoint: string)
    | UnregisterCall(channel: string, endpoint: string)
    | SubscribersCall(channel: string)
    | CloseCall

  // ---------------------------------------------------------------- keys

  /** Both the stored prefix and every key are one string followed by another, each readable back. */
  function Joined(front: string, back: string): (r: string)
    ensures |r| == |front| + |back|
    ensures r[..|front|] == front && r[|front|..] == back
  {
    front + back
  }

  /** New stores the discovery prefix followed by the delimiter. */
  function KeyPrefix(prefix: string, delim: string): string
  {
    Joined(prefix, delim)
  }

  /** Register, Unregister and Subscribers all use the stored prefix followed by the channel. */
  function Key(keyPrefix: string, channel: string): string
  {
    Joined(keyPrefix, channel)
  }

  /** Under one prefix, different channels never share a Redis key. */
  lemma KeyInjective(keyPrefix: string, c1: string, c2: string)
    ensures Key(keyPrefix, c1) == Key(keyPrefix, c2) <==> c1 == c2
  {
    if Key(keyPrefix, c1) == Key(keyPrefix, c2) {
      calc {
        c1;
        Key(keyPrefix, c1)[|keyPrefix|..];
        Key(keyPrefix, c2)[|keyPrefix|..];
        c2;
      }
    }
  }

  // ------------------------------------------------ reply filtering

  /** What one reply element contributes to the subscriber list: its bytes when it is a bulk string. */
  function Kept(el: Reply): seq<string>
  {
    if el.Bulk? then [el.bytes] else []
  }

  /** The bulk-string elements of a reply, converted to strings, in reply order. */
  function BulkStrings(reply: seq<Reply>): seq<string>
    decreases |reply|
  {
    if reply == [] then [] else BulkStrings(reply[..|reply| - 1]) + Kept(reply[|reply| - 1])
  }

  /** Filtering a concatenation filters each part: the kept elements stay in reply order. */
  lemma {:induction false} BulkStringsAppend(a: seq<Reply>, b: seq<Reply>)
    ensures BulkStrings(a + b) == BulkStrings(a) + BulkStrings(b)
    decreases |b|
  {
    if b == [] {
      assert a + b == a;
    } else {
      var b' := b[..|b| - 1];
      assert (a + b)[..|a + b| - 1] == a + b';
      assert (a + b)[|a + b| - 1] == b[|b| - 1];
      BulkStringsAppend(a, b');
    }
  }

  /** The filtered list is never longer than the reply. */
  lemma {:induction false} BulkStringsLength(reply: seq<Reply>)
    ensures |BulkStrings(reply)| <= |reply|
    decreases |reply|
  {
    if reply != [] {
      BulkStringsLength(reply[..|reply| - 1]);
    }
  }

  /** A string is in the filtered list exactly when the reply holds it as a bulk string. */
  lemma {:induction false} BulkStringsMembers(reply: seq<Reply>, s: string)
    ensures s in BulkStrings(reply) <==> Bulk(s) in reply
    decreases |reply|
  {
    if reply != [] {
      var init := reply[..|reply| - 1];
      BulkStringsMembers(init, s);
      assert reply == init + [reply[|reply| - 1]];
    }
  }

  /** A reply made only of bulk strings loses nothing: each element is kept, in place. */
  lemma {:induction false} BulkStringsOfBulks(members: seq<string>)
    ensures BulkStrings(BulksOf(members)) == members
    decreases |members|
  {
    if members != [] {
      var init := members[..|members| - 1];
      assert BulksOf(members)[..|members| - 1] == BulksOf(init);
      BulkStringsOfBulks(init);
    }
  }

  /** The SMEMBERS reply Redis sends for a list of members: one bulk string each. */
  function BulksOf(members: seq<string>): (r: seq<Reply>)
    ensures |r| == |members|
    ensures forall i :: 0 <= i < |r| ==> r[i] == Bulk(members[i])
  {
    seq(|members|, i requires 0 <= i < |members| => Bulk(members[i]))
  }

  /** The append loop of Subscribers: keeps the `[]byte` elements, drops every other kind. */
  method FilterBulk(list: seq<Reply>) returns (slist: seq<string>)
    ensures slist == BulkStrings(list)
  {
    slist := [];
    var i := 0;
    while i < |list|
      invariant 0 <= i <= |list|
      invariant slist == BulkStrings(list[..i])
    {
      assert list[..i + 1][..i] == list[..i];
      if list[i].Bulk? {
        slist := slist + [list[i].bytes];
      }
      i := i + 1;
    }
    assert list[..i] == list;
  }

  /** The subscriber list Subscribers returns for an SMEMBERS outcome: a Redis error is passed on as is. */
  method SubscribersFromReply(reply: Result<seq<Reply>>) returns (r: Result<seq<string>>)
    ensures reply.Err? ==> r == Err(reply.error)
    ensures reply.Ok? ==> r == Ok(BulkStrings(reply.value))
  {
    if reply.Err? {
      return Err(reply.error);
    }
    var slist := FilterBulk(reply.value);
    return Ok(slist);
  }

  /**
   * Redis lists the members of a set in an order of its choosing; each
   * member appears exactly once.
   */
  method SetMembers(s: set<string>) returns (r: seq<string>)
    ensures Elems(r) == s && |r| == |s| && NoDups(r)
  {
    r := [];
    var rest := s;
    while rest != {}
      invariant rest <= s
      invariant forall x :: x in r <==> x in s && x !in rest
      invariant |r| + |rest| == |s|
      invariant NoDups(r)
      decreases |rest|
    {
      var x :| x in rest;
      r := r + [x];
      rest := rest - {x};
    }
  }

  // ------------------------------------------------ the adapter

  /** A RedisDiscovery: a key prefix over a Redis server. */
  class RedisDiscovery {
    /** The stored prefix: the discovery prefix followed by the delimiter. */
    const prefix: string
    /** The Redis sets, by key (a missing key is an empty set). */
    var store: map<string, set<string>>
    /** While set, every Redis command fails with Unreachable. */
    var unreachable: bool
    /** Every call this service has received, oldest first. */
    var calls: seq<Call>

    /** New(pool, prefix, delim), over a server whose key space is `db`. */
    constructor (db: map<string, set<string>>, prefix0: string, delim: string)
      ensures prefix == KeyPrefix(prefix0, delim)
      ensures store == db && !unreachable && calls == []
    {
      prefix := prefix0 + delim;
      store := db;
      unreachable := false;
      calls := [];
    }

    /** The endpoints registered on a channel. */
    ghost function Members(channel: string): set<string>
      reads this
    {
      var key := Key(prefix, channel);
      if key in store then store[key] else {}
    }

    /** What a Redis command returns now, apart from its reply. */
    function Status(): (r: Outcome)
      reads this
      ensures r.Pass? <==> !unreachable
    {
      if unreachable then Fail(Unreachable) else Pass
    }

    /** SADD on the channel's key. */
    method Register(channel: string, endpoint: string) returns (err: Outcome)
      modifies this
      ensures calls == old(calls) + [RegisterCall(channel, endpoint)]
      ensures unreachable == old(unreachable) && err == old(Status())
      ensures err.Pass? ==> store == old(store)[Key(prefix, channel) := old(Members(channel)) + {endpoint}]
      ensures err.Fail? ==> store == old(store)
      ensures err.Pass? ==> Members(channel) == old(Members(channel)) + {endpoint}
    {
      calls := calls + [RegisterCall(channel, endpoint)];
      if unreachable {
        return Fail(Unreachable);
      }
      var key := prefix + channel;
      var members := if key in store then store[key] else {};
      store := store[key := members + {endpoint}];
      return Pass;
    }

    /** SREM on the channel's key. */
    method Unregister(channel: string, endpoint: string) returns (err: Outcome)
      modifies this
      ensures calls == old(calls) + [UnregisterCall(channel, endpoint)]
      ensures unreachable == old(unreachable) && err == old(Status())
      ensures err.Pass? ==> store == old(store)[Key(prefix, channel) := old(Members(channel)) - {endpoint}]
      ensures err.Fail? ==> store == old(store)
      ensures err.Pass? ==> Members(channel) == old(Members(channel)) - {endpoint}
    {
      calls := calls + [UnregisterCall(channel, endpoint)];
      if unreachable {
        return Fail(Unreachable);
      }
      var key := prefix + channel;
      var members := if key in store then store[key] else {};
      store := store[key := members - {endpoint}];
      return Pass;
    }

    /** The subscribers listing of a channel, with SMEMBERS as the Redis step. */
    twostate predicate Listed(channel: string, new r: Result<seq<string>>)
      reads this
    {
      && calls == old(calls) + [SubscribersCall(channel)]
      && store == old(store) && unreachable == old(unreachable)
      && (r.Err? <==> old(unreachable))
      && (r.Err? ==> r.error == Unreachable)
      && (r.Ok? ==> Elems(r.value) == old(Members(channel)) && NoDups(r.value))
    }

    /** SMEMBERS on the channel's key, filtered down to its bulk strings. */
    method Subscribers(channel: string) returns (r: Result<seq<string>>)
      modifies this
      ensures Listed(channel, r)
    {
      calls := calls + [SubscribersCall(channel)];
      var key := prefix + channel;
      var reply: Result<seq<Reply>>;
      var members: seq<string> := [];
      if unreachable {
        reply := Err(Unreachable);
      } else {
        members := SetMembers(if key in store then store[key] else {});
        reply := Ok(BulksOf(members));
      }
      r := SubscribersFromReply(reply);
      if r.Ok? {
        BulkStringsOfBulks(members);
      }
    }

    /** Close releases nothing and always succeeds. */
    method Close() returns (err: Outcome)
      modifies this
      ensures err == Pass
      ensures calls == old(calls) + [CloseCall]
      ensures store == old(store) && unreachable == old(unreachable)
    {
      calls := calls + [CloseCall];
      return Pass;
    }
  }
}
